/** Union-find contact aliasing (`_build_contact_alias`): duplicate-contact pairs are merged by a
    path-compressing forest whose links always point to a smaller id. */
module ContactAlias {
  import opened TextOrder

  // ----- What the alias should mean ------------------------------------------------------------

  /** The guard on a pair: two non-empty ids. */
  predicate Usable(pair: seq<string>) {
    |pair| == 2 && pair[0] != "" && pair[1] != ""
  }

  ghost predicate Linked(pairs: seq<seq<string>>, a: string, b: string) {
    a != "" && b != "" && exists i :: 0 <= i < |pairs| && (pairs[i] == [a, b] || pairs[i] == [b, a])
  }

  ghost predicate IsPath(pairs: seq<seq<string>>, path: seq<string>) {
    path != [] && forall i :: 0 <= i < |path| - 1 ==> Linked(pairs, path[i], path[i + 1])
  }

  /** Two ids are connected when a chain of usable pairs leads from one to the other. */
  ghost predicate Connected(pairs: seq<seq<string>>, a: string, b: string) {
    exists path :: IsPath(pairs, path) && path[0] == a && path[|path| - 1] == b
  }

  /** All ids named by the usable pairs. */
  ghost function Ids(pairs: seq<seq<string>>): set<string> {
    if pairs == [] then {}
    else
      var last := pairs[|pairs| - 1];
      Ids(pairs[..|pairs| - 1]) + if Usable(last) then {last[0], last[1]} else {}
  }

  lemma {:induction false} IdsAreNamed(pairs: seq<seq<string>>, id: string)
    ensures id in Ids(pairs) <==> exists other :: Linked(pairs, id, other)
  {
    if pairs != [] {
      var init, last := pairs[..|pairs| - 1], pairs[|pairs| - 1];
      IdsAreNamed(init, id);
      if other :| Linked(init, id, other) {
        LinkedMono(init, pairs, id, other);
      }
      if Usable(last) && (id == last[0] || id == last[1]) {
        assert last == [last[0], last[1]] && pairs[|pairs| - 1] == last;
        assert Linked(pairs, id, if id == last[0] then last[1] else last[0]);
      }
      if other :| Linked(pairs, id, other) {
        var i :| 0 <= i < |pairs| && (pairs[i] == [id, other] || pairs[i] == [other, id]);
        if i < |init| {
          assert init[i] == pairs[i];
          assert Linked(init, id, other);
        }
      }
    }
  }

  /** How callers read the alias: `alias.get(raw, raw)`. */
  function Canonical(alias: map<string, string>, raw: string): string {
    if raw in alias then alias[raw] else raw
  }

  lemma ConnectedSelf(pairs: seq<seq<string>>, a: string)
    ensures Connected(pairs, a, a)
  {
    assert IsPath(pairs, [a]);
  }

  lemma ConnectedByLink(pairs: seq<seq<string>>, a: string, b: string)
    requires Linked(pairs, a, b)
    ensures Connected(pairs, a, b)
  {
    assert IsPath(pairs, [a, b]);
  }

  lemma ConnectedTrans(pairs: seq<seq<string>>, a: string, b: string, c: string)
    requires Connected(pairs, a, b) && Connected(pairs, b, c)
    ensures Connected(pairs, a, c)
  {
    var p :| IsPath(pairs, p) && p[0] == a && p[|p| - 1] == b;
    var q :| IsPath(pairs, q) && q[0] == b && q[|q| - 1] == c;
    var path := p + q[1..];
    forall i | 0 <= i < |path| - 1
      ensures Linked(pairs, path[i], path[i + 1])
    {
      if i >= |p| - 1 {
        assert path[i] == q[i - (|p| - 1)] && path[i + 1] == q[i + 1 - (|p| - 1)];
      }
    }
    assert IsPath(pairs, path);
  }

  lemma LinkedMono(pairs: seq<seq<string>>, more: seq<seq<string>>, a: string, b: string)
    requires pairs <= more && Linked(pairs, a, b)
    ensures Linked(more, a, b)
  {
    var j :| 0 <= j < |pairs| && (pairs[j] == [a, b] || pairs[j] == [b, a]);
    assert more[j] == pairs[j];
  }

  lemma ConnectedMono(pairs: seq<seq<string>>, more: seq<seq<string>>, a: string, b: string)
    requires pairs <= more && Connected(pairs, a, b)
    ensures Connected(more, a, b)
  {
    var p :| IsPath(pairs, p) && p[0] == a && p[|p| - 1] == b;
    forall i | 0 <= i < |p| - 1
      ensures Linked(more, p[i], p[i + 1])
    {
      LinkedMono(pairs, more, p[i], p[i + 1]);
    }
    assert IsPath(more, p);
  }

  // ----- Representatives -----------------------------------------------------------------------

  /** `rep` separates ids exactly as the pairs seen so far do. */
  ghost predicate Represents(rep: map<string, string>, pairs: seq<seq<string>>) {
    forall a, b :: Canonical(rep, a) == Canonical(rep, b) <==> Connected(pairs, a, b)
  }

  /** The classes of `x` and `y`, whose representatives are `rx` and `ry`, become one class. */
  ghost function Merged(rep: map<string, string>, hi: string, lo: string): map<string, string> {
    map k | k in rep :: if rep[k] == hi then lo else rep[k]
  }

  lemma RepresentsNothing()
    ensures Represents(map[], [])
  {
    forall a, b
      ensures Canonical(map[], a) == Canonical(map[], b) <==> Connected([], a, b)
    {
      ConnectedSelf([], a);
      if Connected([], a, b) {
        var p :| IsPath([], p) && p[0] == a && p[|p| - 1] == b;
        assert |p| > 1 ==> Linked([], p[0], p[1]);
      }
    }
  }

  lemma RepresentsSkip(rep: map<string, string>, pairs: seq<seq<string>>, pair: seq<string>)
    requires Represents(rep, pairs) && !Usable(pair)
    ensures Represents(rep, pairs + [pair])
  {
    var more := pairs + [pair];
    forall a, b
      ensures Connected(pairs, a, b) <==> Connected(more, a, b)
    {
      if Connected(pairs, a, b) {
        ConnectedMono(pairs, more, a, b);
      }
      if Connected(more, a, b) {
        var path :| IsPath(more, path) && path[0] == a && path[|path| - 1] == b;
        assert forall x, y :: Linked(more, x, y) ==> Linked(pairs, x, y);
        assert IsPath(pairs, path);
      }
    }
  }

  /** `after` reads as `before` with the classes of `x` and `y` merged, and no others. */
  ghost predicate Merges(before: map<string, string>, after: map<string, string>, x: string, y: string) {
    forall a, b :: Canonical(after, a) == Canonical(after, b) <==>
      (Canonical(before, a) == Canonical(before, b)
      || (Canonical(before, a) == Canonical(before, x) && Canonical(before, b) == Canonical(before, y))
      || (Canonical(before, a) == Canonical(before, y) && Canonical(before, b) == Canonical(before, x)))
  }

  lemma RepresentsUnion(
    before: map<string, string>, after: map<string, string>, pairs: seq<seq<string>>, x: string, y: string)
    requires Represents(before, pairs)
    requires x != "" && y != "" && Merges(before, after, x, y)
    ensures Represents(after, pairs + [[x, y]])
  {
    var more := pairs + [[x, y]];
    assert more[|pairs|] == [x, y];
    assert Linked(more, x, y) && Linked(more, y, x);
    forall a, b
      ensures Canonical(after, a) == Canonical(after, b) <==> Connected(more, a, b)
    {
      if Connected(pairs, a, b) {
        ConnectedMono(pairs, more, a, b);
      } else if Connected(pairs, a, x) && Connected(pairs, y, b) {
        ConnectedThrough(pairs, more, a, x, y, b);
      } else if Connected(pairs, a, y) && Connected(pairs, x, b) {
        ConnectedThrough(pairs, more, a, y, x, b);
      }
      if Connected(more, a, b) {
        var path :| IsPath(more, path) && path[0] == a && path[|path| - 1] == b;
        PathKeepsClass(before, after, pairs, x, y, path);
      }
    }
  }

  lemma ConnectedThrough(pairs: seq<seq<string>>, more: seq<seq<string>>, a: string, x: string, y: string, b: string)
    requires pairs <= more && Connected(pairs, a, x) && Linked(more, x, y) && Connected(pairs, y, b)
    ensures Connected(more, a, b)
  {
    ConnectedMono(pairs, more, a, x);
    ConnectedMono(pairs, more, y, b);
    ConnectedByLink(more, x, y);
    ConnectedTrans(more, a, x, y);
    ConnectedTrans(more, a, y, b);
  }

  lemma {:induction false} PathKeepsClass(
    before: map<string, string>, after: map<string, string>, pairs: seq<seq<string>>,
    x: string, y: string, path: seq<string>)
    requires Represents(before, pairs) && Merges(before, after, x, y)
    requires IsPath(pairs + [[x, y]], path)
    ensures Canonical(after, path[0]) == Canonical(after, path[|path| - 1])
  {
    if |path| > 1 {
      var u, v := path[0], path[1];
      assert Linked(pairs + [[x, y]], u, v);
      if Linked(pairs, u, v) {
        ConnectedByLink(pairs, u, v);
      } else {
        assert [x, y] == [u, v] || [x, y] == [v, u];
        assert [x, y][0] == x && [x, y][1] == y && [u, v][0] == u && [u, v][1] == v && [v, u][0] == v;
      }
      forall i | 0 <= i < |path[1..]| - 1
        ensures Linked(pairs + [[x, y]], path[1..][i], path[1..][i + 1])
      {
        assert Linked(pairs + [[x, y]], path[i + 1], path[i + 2]);
      }
      PathKeepsClass(before, after, pairs, x, y, path[1..]);
    }
  }

  /** No id connected to `a` is smaller than its canonical id, which is itself connected. */
  ghost predicate CanonicalIsLeast(pairs: seq<seq<string>>, alias: map<string, string>) {
    && (forall a {:trigger Canonical(alias, a)} :: Connected(pairs, a, Canonical(alias, a)))
    && (forall a, b :: Connected(pairs, a, b) ==> !Less(b, Canonical(alias, a)))
  }

  ghost predicate Idempotent(alias: map<string, string>) {
    forall a {:trigger Canonical(alias, a)} :: Canonical(alias, Canonical(alias, a)) == Canonical(alias, a)
  }

  lemma RepresentativesAreLeast(pairs: seq<seq<string>>, alias: map<string, string>)
    requires Represents(alias, pairs) && Idempotent(alias)
    requires forall a :: a in alias ==> alias[a] == a || Less(alias[a], a)
    ensures CanonicalIsLeast(pairs, alias)
  {
    forall a, b | Connected(pairs, a, b)
      ensures !Less(b, Canonical(alias, a))
    {
      LessIrreflexive(b);
      if b in alias && Less(b, alias[b]) && Less(alias[b], b) {
        LessTransitive(b, alias[b], b);
      }
    }
  }

  // ----- The algorithm -------------------------------------------------------------------------

  type Links = map<string, string>

  /** One node of the forest: its link goes to a smaller node of the same class, and its class's
      representative is a root that is no larger than the node. */
  ghost predicate Node(parent: Links, rep: Links, k: string) {
    && k in parent && k in rep
    && parent[k] in parent && (parent[k] == k || Less(parent[k], k))
    && parent[k] in rep && rep[parent[k]] == rep[k] && (parent[k] == k ==> rep[k] == k)
    && rep[k] in parent && parent[rep[k]] == rep[k] && (rep[k] == k || Less(rep[k], k))
  }

  /** `parent` is a forest and `rep` its representatives. */
  ghost predicate Forest(parent: Links, rep: Links) {
    && parent.Keys == rep.Keys
    && forall k {:trigger Node(parent, rep, k)} :: k in parent ==> Node(parent, rep, k)
  }

  lemma InsertNode(parent: Links, rep: Links, v: string)
    requires Forest(parent, rep) && v !in parent
    ensures Forest(parent[v := v], rep[v := v])
  {
    var q := parent[v := v];
    forall k | k in q
      ensures Node(q, rep[v := v], k)
    {
      assert k == v || Node(parent, rep, k);
    }
  }

  lemma CompressNode(parent: Links, rep: Links, v: string)
    requires Forest(parent, rep) && v in parent
    ensures Forest(parent[v := rep[v]], rep)
  {
    assert Node(parent, rep, v) && Node(parent, rep, rep[v]);
    forall k | k in parent
      ensures Node(parent[v := rep[v]], rep, k)
    {
      assert Node(parent, rep, k) && Node(parent, rep, rep[k]);
      assert rep[rep[k]] == rep[k];
    }
  }

  lemma LinkNode(parent: Links, rep: Links, hi: string, lo: string, k: string)
    requires hi in parent && hi in rep && rep[hi] == hi && Less(lo, hi) && lo != hi
    requires Node(parent, rep, lo) && rep[lo] == lo && Node(parent, rep, hi)
    requires Node(parent, rep, k) && Node(parent, rep, parent[k])
    ensures Node(parent[hi := lo], Merged(rep, hi, lo), k)
  {
    if rep[k] == hi && k != hi {
      LessTransitive(lo, hi, k);
    }
    hide Less;
  }

  lemma LinkNodes(parent: Links, rep: Links, hi: string, lo: string)
    requires Forest(parent, rep)
    requires hi in parent && lo in parent && rep[hi] == hi && rep[lo] == lo && Less(lo, hi)
    ensures Forest(parent[hi := lo], Merged(rep, hi, lo))
  {
    LessIrreflexive(hi);
    hide Less;
    assert Node(parent, rep, lo) && Node(parent, rep, hi);
    forall k | k in parent
      ensures Node(parent[hi := lo], Merged(rep, hi, lo), k)
    {
      assert Node(parent, rep, k) && parent[k] in parent;
      assert Node(parent, rep, parent[k]);
      hide Node;
      LinkNode(parent, rep, hi, lo, k);
    }
  }

  /** Both maps give every string the same canonical id. */
  ghost predicate ReadAlike(before: Links, after: Links) {
    forall a :: Canonical(before, a) == Canonical(after, a)
  }

  lemma LinkMerges(before: Links, rep: Links, hi: string, lo: string, x: string, y: string)
    requires ReadAlike(before, rep)
    requires hi in rep && lo in rep && rep[hi] == hi && rep[lo] == lo && hi != lo && x in rep && y in rep
    requires (rep[x] == hi && rep[y] == lo) || (rep[x] == lo && rep[y] == hi)
    ensures Merges(before, Merged(rep, hi, lo), x, y)
  {
    forall a
      ensures Canonical(Merged(rep, hi, lo), a) == if Canonical(before, a) == hi then lo else Canonical(before, a)
    {
      assert Canonical(before, a) == Canonical(rep, a);
    }
  }

  lemma SameClassMerges(before: Links, rep: Links, x: string, y: string)
    requires ReadAlike(before, rep) && Canonical(rep, x) == Canonical(rep, y)
    ensures Merges(before, rep, x, y)
  {}

  lemma UnionStep(before: Links, parent: Links, rep: Links, x: string, y: string)
    requires Forest(parent, rep) && ReadAlike(before, rep) && x in rep && y in rep
    ensures rep[x] in rep && rep[y] in rep
    ensures rep[x] == rep[y] ==> Merges(before, rep, x, y)
    ensures Less(rep[x], rep[y]) ==>
      Forest(parent[rep[y] := rep[x]], Merged(rep, rep[y], rep[x])) && Merges(before, Merged(rep, rep[y], rep[x]), x, y)
    ensures rep[x] == rep[y] || Less(rep[x], rep[y]) || Less(rep[y], rep[x])
  {
    assert Node(parent, rep, x) && Node(parent, rep, y);
    assert Node(parent, rep, rep[x]) && Node(parent, rep, rep[y]);
    LessIrreflexive(rep[x]);
    if rep[x] == rep[y] {
      SameClassMerges(before, rep, x, y);
    } else {
      LessTotal(rep[x], rep[y]);
      if Less(rep[x], rep[y]) {
        LinkNodes(parent, rep, rep[y], rep[x]);
        LinkMerges(before, rep, rep[y], rep[x], x, y);
      }
    }
  }

  lemma MergesSymmetric(before: Links, after: Links, x: string, y: string)
    requires Merges(before, after, x, y)
    ensures Merges(before, after, y, x)
  {}

  /** The `parent` dictionary. The ghost `rep` gives each node's representative. */
  class AliasForest {
    var parent: map<string, string>
    ghost var rep: map<string, string>

    ghost predicate Valid()
      reads this
    {
      Forest(parent, rep)
    }

    constructor ()
      ensures Valid() && rep == map[]
    {
      parent, rep := map[], map[];
    }

    /** The nodes smaller than `k`: following a link always shrinks them. */
    ghost function Below(k: string): set<string>
      reads this
    {
      set x | x in parent && Less(x, k)
    }

    lemma BelowShrinks(k: string)
      requires Valid() && k in parent && parent[k] != k
      ensures Below(parent[k]) < Below(k)
    {
      assert Node(parent, rep, k);
      forall x | x in Below(parent[k])
        ensures x in Below(k)
      {
        LessTransitive(x, parent[k], k);
      }
      LessIrreflexive(parent[k]);
      assert parent[k] in Below(k) && parent[k] !in Below(parent[k]);
    }

    /** The recursive `find` with path compression. */
    method Find(value: string) returns (root: string)
      requires Valid()
      modifies this
      ensures Valid()
      ensures rep == if value in old(rep) then old(rep) else old(rep)[value := value]
      ensures ReadAlike(old(rep), rep)
      ensures root == rep[value]
      decreases Below(value)
    {
      if value !in parent {
        InsertNode(parent, rep, value);
        parent, rep := parent[value := value], rep[value := value];
      }
      assert Node(parent, rep, value);
      if parent[value] != value {
        BelowShrinks(value);
        var up := Find(parent[value]);
        CompressNode(parent, rep, value);
        parent := parent[value := up];
      }
      root := parent[value];
    }

    /** One usable pair of the loop: link the larger representative under the smaller. */
    method Union(x: string, y: string)
      requires Valid()
      modifies this
      ensures Valid() && rep.Keys == old(rep).Keys + {x, y}
      ensures Merges(old(rep), rep, x, y)
    {
      hide Merges, Node, Less, Merged, Forest;
      ghost var before := rep;
      var left := Find(x);
      var right := Find(y);
      Link(x, y, left, right, before);
    }

    /** The larger of two representatives is hung under the smaller. */
    method Link(x: string, y: string, left: string, right: string, ghost before: Links)
      requires Valid() && x in rep && y in rep && left == rep[x] && right == rep[y]
      requires ReadAlike(before, rep)
      modifies this
      ensures Valid() && rep.Keys == old(rep).Keys
      ensures Merges(before, rep, x, y)
    {
      UnionStep(before, parent, rep, x, y);
      UnionStep(before, parent, rep, y, x);
      hide Merges, Node, Less, Forest;
      if left != right {
        if Less(left, right) {
          parent, rep := parent[right := left], Merged(rep, right, left);
        } else {
          parent, rep := parent[left := right], Merged(rep, left, right);
          MergesSymmetric(before, rep, y, x);
        }
      }
    }

    /** The closing comprehension `{key: find(key) for key in parent}`, which keeps compressing. */
    method ReadAll() returns (alias: map<string, string>)
      requires Valid()
      modifies this
      ensures Valid() && alias == rep == old(rep)
    {
      alias := map[];
      var todo := parent.Keys;
      while todo != {}
        invariant Valid() && rep == old(rep)
        invariant todo <= rep.Keys && alias.Keys == rep.Keys - todo
        invariant forall x :: x in alias ==> alias[x] == rep[x]
      {
        var key :| key in todo;
        var root := Find(key);
        alias := alias[key := root];
        todo := todo - {key};
      }
    }
  }

  /** The alias map answers exactly the connectivity question, with the least id of each component:
      two ids read the same canonical id iff a chain of pairs joins them, no connected id is smaller
      than the canonical one, and reading twice changes nothing. */
  method BuildContactAlias(pairs: seq<seq<string>>) returns (alias: map<string, string>)
    ensures alias.Keys == Ids(pairs)
    ensures forall a, b :: Canonical(alias, a) == Canonical(alias, b) <==> Connected(pairs, a, b)
    ensures CanonicalIsLeast(pairs, alias)
    ensures Idempotent(alias)
  {
    var forest := new AliasForest();
    RepresentsNothing();
    for i := 0 to |pairs|
      invariant forest.Valid() && fresh(forest) && forest.rep.Keys == Ids(pairs[..i])
      invariant Represents(forest.rep, pairs[..i])
    {
      assert pairs[..i + 1][..i] == pairs[..i] && pairs[..i + 1] == pairs[..i] + [pairs[i]];
      ghost var before := forest.rep;
      if Usable(pairs[i]) {
        forest.Union(pairs[i][0], pairs[i][1]);
        assert pairs[i] == [pairs[i][0], pairs[i][1]];
        RepresentsUnion(before, forest.rep, pairs[..i], pairs[i][0], pairs[i][1]);
      } else {
        RepresentsSkip(before, pairs[..i], pairs[i]);
      }
    }
    assert pairs[..|pairs|] == pairs;
    assert forall k :: k in forest.rep ==> Node(forest.parent, forest.rep, k);
    alias := forest.ReadAll();
    RepresentativesAreLeast(pairs, alias);
  }
}
