/**
 The capability tag tree: flattening a nested forest into a parent table, walking parents with a
 cycle cut-off, and matching capability tags against authorized domains.
 */
module CapabilityTree {
  import opened Wrappers

  datatype Tag = Tag(id: string, name: string, parent: Option<string>, aliases: seq<string>)
  datatype Node = Node(id: string, name: string, children: seq<Node>)

  // ----- the parent table -----

  /** Collecting into a `BTreeMap`: the last tag with an id wins. */
  function ById(tags: seq<Tag>): (m: map<string, Tag>)
    ensures forall id :: id in m ==> m[id] in tags && m[id].id == id
    ensures forall i :: 0 <= i < |tags| ==> tags[i].id in m
  {
    if tags == [] then map[]
    else
      var last := tags[|tags| - 1];
      assert tags == tags[..|tags| - 1] + [last];
      ById(tags[..|tags| - 1])[last.id := last]
  }

  function ParentOf(m: map<string, Tag>, id: string): Option<string> {
    if id in m then m[id].parent else None
  }

  /** The n-th ancestor of `id`; the id itself is the zeroth. */
  function Ancestor(m: map<string, Tag>, id: string, n: nat): Option<string> {
    if n == 0 then Some(id)
    else match Ancestor(m, id, n - 1)
      case None => None
      case Some(below) => ParentOf(m, below)
  }

  ghost predicate Reaches(m: map<string, Tag>, id: string, domain: string) {
    exists n: nat :: Ancestor(m, id, n) == Some(domain)
  }

  ghost predicate DescendantOrSame(tags: seq<Tag>, tagId: string, domainId: string) {
    domainId == "*" || Reaches(ById(tags), tagId, domainId)
  }

  /** The parents occurring in a table. */
  function Parents(m: map<string, Tag>): set<string> {
    set id | id in m && m[id].parent.Some? :: m[id].parent.value
  }

  // ----- the loop: cutting off at a repeated parent loses no answer -----

  lemma {:induction false} AncestorNone(m: map<string, Tag>, id: string, k: nat, n: nat)
    requires k <= n && Ancestor(m, id, k).None?
    ensures Ancestor(m, id, n).None?
  {
    if k < n {
      AncestorNone(m, id, k, n - 1);
    }
  }

  lemma {:induction false} AncestorCycle(m: map<string, Tag>, id: string, j: nat, k: nat, d: nat)
    requires Ancestor(m, id, j) == Ancestor(m, id, k)
    ensures Ancestor(m, id, j + d) == Ancestor(m, id, k + d)
  {
    if d > 0 {
      AncestorCycle(m, id, j, k, d - 1);
    }
  }

  /** Once the chain repeats, everything it reaches it has reached before. */
  lemma {:induction false} CycleAddsNothing(m: map<string, Tag>, id: string, j: nat, k: nat, n: nat, domain: string)
    requires j < k && Ancestor(m, id, j) == Ancestor(m, id, k)
    requires forall i: nat :: i < k ==> Ancestor(m, id, i) != Some(domain)
    ensures Ancestor(m, id, n) != Some(domain)
    decreases n
  {
    if n >= k {
      AncestorCycle(m, id, j, k, n - k);
      CycleAddsNothing(m, id, j, k, j + (n - k), domain);
    }
  }

  /** `p` is one of the ancestors before the k-th. */
  ghost predicate ReachedBefore(m: map<string, Tag>, id: string, k: nat, p: string) {
    exists j: nat :: j < k && Ancestor(m, id, j) == Some(p)
  }

  lemma RepeatEndsSearch(m: map<string, Tag>, id: string, k: nat, parent: string, domain: string)
    requires Ancestor(m, id, k) == Some(parent) && ReachedBefore(m, id, k, parent)
    requires !ReachedBefore(m, id, k, domain)
    ensures !Reaches(m, id, domain)
  {
    var j: nat :| j < k && Ancestor(m, id, j) == Some(parent);
    forall n: nat ensures Ancestor(m, id, n) != Some(domain) {
      CycleAddsNothing(m, id, j, k, n, domain);
    }
  }

  lemma RootEndsSearch(m: map<string, Tag>, id: string, k: nat, domain: string)
    requires Ancestor(m, id, k).None?
    requires !ReachedBefore(m, id, k, domain)
    ensures !Reaches(m, id, domain)
  {
    forall n: nat ensures Ancestor(m, id, n) != Some(domain) {
      if n >= k { AncestorNone(m, id, k, n); }
    }
  }

  /** Each turn either ends the walk or puts a parent not yet seen into `seen`. */
  method IsDescendantOrSame(tags: seq<Tag>, tagId: string, domainId: string) returns (found: bool)
    ensures found <==> DescendantOrSame(tags, tagId, domainId)
  {
    hide ById;
    var byId := ById(tags);
    assert Ancestor(byId, tagId, 0) == Some(tagId);
    if domainId == "*" || tagId == domainId {
      return true;
    }
    var current := ParentOf(byId, tagId);
    var seen: set<string> := {};
    ghost var k: nat := 1;
    while current.Some?
      invariant k >= 1 && current == Ancestor(byId, tagId, k)
      invariant !ReachedBefore(byId, tagId, k, domainId)
      invariant forall p :: p in seen ==> ReachedBefore(byId, tagId, k, p)
      invariant seen <= Parents(byId)
      invariant current.Some? ==> current.value in Parents(byId)
      decreases |Parents(byId) - seen|, current
    {
      var parent := current.value;
      if parent == domainId {
        return true;
      }
      if parent in seen {
        RepeatEndsSearch(byId, tagId, k, parent, domainId);
        return false;
      }
      SmallerSet(Parents(byId) - (seen + {parent}), Parents(byId) - seen, parent);
      seen := seen + {parent};
      current := ParentOf(byId, parent);
      k := k + 1;
    }
    RootEndsSearch(byId, tagId, k, domainId);
    return false;
  }

  lemma SmallerSet<T>(a: set<T>, b: set<T>, extra: T)
    requires a <= b && extra in b && extra !in a
    ensures |a| < |b|
  {
    assert |b| == |a| + |b - a| by { assert b == a + (b - a); }
  }

  // ----- flattening -----

  /** The preorder listing of a forest whose roots have the given parent. */
  function Preorder(nodes: seq<Node>, parent: Option<string>): seq<Tag> {
    if nodes == [] then []
    else
      [Tag(nodes[0].id, nodes[0].name, parent, [])]
      + Preorder(nodes[0].children, Some(nodes[0].id))
      + Preorder(nodes[1..], parent)
  }

  class CapabilityTagTree {
    const version: nat
    var tags: seq<Tag>
    var tree: seq<Node>

    constructor (version: nat, tags: seq<Tag>, tree: seq<Node>)
      ensures this.version == version && this.tags == tags && this.tree == tree
    {
      this.version, this.tags, this.tree := version, tags, tree;
    }

    method FlattenTree()
      modifies this`tags
      ensures tags == if old(tags) == [] then Preorder(tree, None) else old(tags)
    {
      if tags != [] || tree == [] {
        return;
      }
      WalkAll(tree, None);
    }

    method Walk(node: Node, parent: Option<string>)
      modifies this`tags
      ensures tags == old(tags) + Preorder([node], parent)
      decreases node, 1
    {
      tags := tags + [Tag(node.id, node.name, parent, [])];
      WalkAll(node.children, Some(node.id));
      assert Preorder([node], parent)
          == [Tag(node.id, node.name, parent, [])] + Preorder(node.children, Some(node.id)) + [];
    }

    method WalkAll(nodes: seq<Node>, parent: Option<string>)
      modifies this`tags
      ensures tags == old(tags) + Preorder(nodes, parent)
      decreases nodes, 0
    {
      var i := 0;
      while i < |nodes|
        invariant i <= |nodes|
        invariant tags == old(tags) + Preorder(nodes[..i], parent)
      {
        Walk(nodes[i], parent);
        PreorderAppend(nodes[..i], [nodes[i]], parent);
        assert nodes[..i + 1] == nodes[..i] + [nodes[i]];
        i := i + 1;
      }
      assert nodes[..i] == nodes;
    }
  }

  lemma {:induction false} PreorderAppend(a: seq<Node>, b: seq<Node>, parent: Option<string>)
    ensures Preorder(a + b, parent) == Preorder(a, parent) + Preorder(b, parent)
  {
    if a == [] {
      assert a + b == b;
    } else {
      assert (a + b)[1..] == a[1..] + b;
      PreorderAppend(a[1..], b, parent);
    }
  }

  // ----- containment in the nested forest -----

  /** The ids of a forest in preorder. */
  function Ids(nodes: seq<Node>): seq<string> {
    if nodes == [] then [] else [nodes[0].id] + Ids(nodes[0].children) + Ids(nodes[1..])
  }

  ghost predicate Distinct<T>(s: seq<T>) {
    forall i, j :: 0 <= i < j < |s| ==> s[i] != s[j]
  }

  /** A node with id `domain` has `id` strictly below it. */
  predicate LiesUnder(nodes: seq<Node>, id: string, domain: string) {
    nodes != []
    && (|| (nodes[0].id == domain && id in Ids(nodes[0].children))
        || LiesUnder(nodes[0].children, id, domain)
        || LiesUnder(nodes[1..], id, domain))
  }

  lemma {:induction false} PreorderIds(nodes: seq<Node>, parent: Option<string>)
    ensures |Preorder(nodes, parent)| == |Ids(nodes)|
    ensures forall i :: 0 <= i < |Ids(nodes)| ==> Preorder(nodes, parent)[i].id == Ids(nodes)[i]
  {
    if nodes != [] {
      PreorderIds(nodes[0].children, Some(nodes[0].id));
      PreorderIds(nodes[1..], parent);
    }
  }

  lemma {:induction false} UnderImpliesIn(nodes: seq<Node>, id: string, domain: string)
    requires LiesUnder(nodes, id, domain)
    ensures id in Ids(nodes) && domain in Ids(nodes)
  {
    if LiesUnder(nodes[0].children, id, domain) {
      UnderImpliesIn(nodes[0].children, id, domain);
    } else if LiesUnder(nodes[1..], id, domain) {
      UnderImpliesIn(nodes[1..], id, domain);
    }
  }

  lemma DistinctParts<T>(a: T, b: seq<T>, c: seq<T>)
    requires Distinct([a] + b + c)
    ensures Distinct(b) && Distinct(c)
    ensures a !in b && a !in c
    ensures forall x :: x in b ==> x !in c
  {
    var s := [a] + b + c;
    assert forall i :: 0 <= i < |b| ==> s[i + 1] == b[i];
    assert forall i :: 0 <= i < |c| ==> s[i + 1 + |b|] == c[i];
    assert s[0] == a;
  }

  lemma {:induction false} UnderTransitive(nodes: seq<Node>, id: string, middle: string, domain: string)
    requires Distinct(Ids(nodes))
    requires LiesUnder(nodes, id, middle) && LiesUnder(nodes, middle, domain)
    ensures LiesUnder(nodes, id, domain)
  {
    var root, below, others := nodes[0].id, nodes[0].children, nodes[1..];
    DistinctParts(root, Ids(below), Ids(others));
    if root == domain && middle in Ids(below) {
      if LiesUnder(below, id, middle) { UnderImpliesIn(below, id, middle); }
      if LiesUnder(others, id, middle) { UnderImpliesIn(others, id, middle); }
    } else if LiesUnder(below, middle, domain) {
      UnderImpliesIn(below, middle, domain);
      if LiesUnder(others, id, middle) { UnderImpliesIn(others, id, middle); }
      UnderTransitive(below, id, middle, domain);
    } else {
      UnderImpliesIn(others, middle, domain);
      if LiesUnder(below, id, middle) { UnderImpliesIn(below, id, middle); }
      UnderTransitive(others, id, middle, domain);
    }
  }

  /** A table entry of the flattened forest names the node directly above. */
  lemma {:induction false} ParentIsAbove(nodes: seq<Node>, parent: Option<string>, tag: Tag)
    requires tag in Preorder(nodes, parent) && tag.parent.Some?
    ensures tag.id in Ids(nodes)
    ensures tag.parent == parent || LiesUnder(nodes, tag.id, tag.parent.value)
  {
    var root := nodes[0];
    if tag in Preorder(root.children, Some(root.id)) {
      ParentIsAbove(root.children, Some(root.id), tag);
    } else if tag in Preorder(nodes[1..], parent) {
      ParentIsAbove(nodes[1..], parent, tag);
    }
  }

  lemma {:induction false} ReachedLiesUnder(forest: seq<Node>, id: string, domain: string, n: nat)
    requires Distinct(Ids(forest))
    requires Ancestor(ById(Preorder(forest, None)), id, n) == Some(domain)
    ensures id == domain || LiesUnder(forest, id, domain)
    decreases n
  {
    hide ById, Preorder, LiesUnder;
    if n > 0 {
      var m := ById(Preorder(forest, None));
      var below := Ancestor(m, id, n - 1).value;
      ReachedLiesUnder(forest, id, below, n - 1);
      ParentIsAbove(forest, None, m[below]);
      if id != below {
        UnderTransitive(forest, id, below, domain);
      }
    }
  }

  /** The table holds the tag of every node of `nodes`, hung below `parent`. */
  ghost predicate Agrees(m: map<string, Tag>, nodes: seq<Node>, parent: Option<string>) {
    forall tag :: tag in Preorder(nodes, parent) ==> tag.id in m && m[tag.id] == tag
  }

  lemma AgreesParts(m: map<string, Tag>, nodes: seq<Node>, parent: Option<string>)
    requires nodes != [] && Agrees(m, nodes, parent)
    ensures nodes[0].id in m && m[nodes[0].id].parent == parent
    ensures Agrees(m, nodes[0].children, Some(nodes[0].id)) && Agrees(m, nodes[1..], parent)
  {
    assert Tag(nodes[0].id, nodes[0].name, parent, []) in Preorder(nodes, parent);
  }

  lemma {:induction false} ClimbsToRoot(m: map<string, Tag>, nodes: seq<Node>, domain: string, id: string) returns (n: nat)
    requires Agrees(m, nodes, Some(domain))
    requires id in Ids(nodes)
    ensures Ancestor(m, id, n) == Some(domain)
  {
    AgreesParts(m, nodes, Some(domain));
    if nodes[0].id == id {
      assert Ancestor(m, id, 0) == Some(id);
      n := 1;
    } else if id in Ids(nodes[0].children) {
      n := ClimbsToRoot(m, nodes[0].children, nodes[0].id, id);
      n := n + 1;
    } else {
      n := ClimbsToRoot(m, nodes[1..], domain, id);
    }
  }

  lemma {:induction false} UnderIsReached(m: map<string, Tag>, nodes: seq<Node>, parent: Option<string>, id: string, domain: string)
    requires Agrees(m, nodes, parent)
    requires LiesUnder(nodes, id, domain)
    ensures Reaches(m, id, domain)
  {
    AgreesParts(m, nodes, parent);
    var root := nodes[0];
    if root.id == domain && id in Ids(root.children) {
      var n := ClimbsToRoot(m, root.children, domain, id);
    } else if LiesUnder(root.children, id, domain) {
      UnderIsReached(m, root.children, Some(root.id), id, domain);
    } else {
      UnderIsReached(m, nodes[1..], parent, id, domain);
    }
  }

  lemma LastTagAdded(tags: seq<Tag>)
    requires tags != []
    ensures var n := |tags| - 1; ById(tags) == ById(tags[..n])[tags[n].id := tags[n]]
  {
  }

  lemma {:induction false} DistinctTable(tags: seq<Tag>)
    requires forall i, j :: 0 <= i < j < |tags| ==> tags[i].id != tags[j].id
    ensures forall i :: 0 <= i < |tags| ==> ById(tags)[tags[i].id] == tags[i]
  {
    hide ById;
    if tags != [] {
      var init := tags[..|tags| - 1];
      DistinctTable(init);
      LastTagAdded(tags);
      forall i | 0 <= i < |tags|
        ensures ById(tags)[tags[i].id] == tags[i]
      {
        if i < |init| { assert init[i] == tags[i]; }
      }
    }
  }

  /** On a flattened forest with unique ids the parent walk answers subtree containment. */
  lemma WalkIsContainment(forest: seq<Node>, tagId: string, domainId: string)
    requires Distinct(Ids(forest))
    ensures DescendantOrSame(Preorder(forest, None), tagId, domainId)
       <==> domainId == "*" || tagId == domainId || LiesUnder(forest, tagId, domainId)
  {
    var tags := Preorder(forest, None);
    var m := ById(tags);
    assert Ancestor(m, tagId, 0) == Some(tagId);
    if Reaches(m, tagId, domainId) {
      var n: nat :| Ancestor(m, tagId, n) == Some(domainId);
      ReachedLiesUnder(forest, tagId, domainId, n);
    }
    if LiesUnder(forest, tagId, domainId) {
      PreorderIds(forest, None);
      DistinctTable(tags);
      assert Agrees(m, forest, None);
      UnderIsReached(m, forest, None, tagId, domainId);
    }
  }

  // ----- authorized domains -----

  predicate Names(tag: Tag, value: string) {
    tag.id == value || value in tag.aliases
  }

  /** The id of the first tag that `value` names. */
  function NormalizeTag(tags: seq<Tag>, value: string): (id: Option<string>)
    ensures id.None? <==> forall i :: 0 <= i < |tags| ==> !Names(tags[i], value)
    ensures id.Some? ==> exists i :: 0 <= i < |tags| && Names(tags[i], value) && tags[i].id == id.value
                                  && forall j :: 0 <= j < i ==> !Names(tags[j], value)
  {
    if tags == [] then None
    else if Names(tags[0], value) then Some(tags[0].id)
    else
      var rest := NormalizeTag(tags[1..], value);
      assert forall i :: 0 < i < |tags| ==> tags[i] == tags[1..][i - 1];
      assert rest.Some? ==> exists i :: 0 <= i < |tags[1..]| && Names(tags[1..][i], value) && tags[1..][i].id == rest.value
                                  && forall j :: 0 <= j < i ==> !Names(tags[1..][j], value);
      assert rest.Some? ==> exists i :: 0 <= i < |tags| && Names(tags[i], value) && tags[i].id == rest.value
                                  && forall j :: 0 <= j < i ==> !Names(tags[j], value) by {
        if rest.Some? {
          var i :| 0 <= i < |tags[1..]| && Names(tags[1..][i], value) && tags[1..][i].id == rest.value
                                  && forall j :: 0 <= j < i ==> !Names(tags[1..][j], value);
          assert Names(tags[i + 1], value);
        }
      }
      rest
  }

  function Normalized(tags: seq<Tag>, value: string): string {
    NormalizeTag(tags, value).UnwrapOr(value)
  }

  ghost predicate DomainsMatch(tags: seq<Tag>, capabilities: seq<string>, domains: seq<string>) {
    || "*" in domains
    || exists i, j :: 0 <= i < |capabilities| && 0 <= j < |domains|
                   && DescendantOrSame(tags, Normalized(tags, capabilities[i]), Normalized(tags, domains[j]))
  }

  method MatchesAuthorizedDomains(tags: seq<Tag>, capabilities: seq<string>, domains: seq<string>) returns (found: bool)
    ensures found <==> DomainsMatch(tags, capabilities, domains)
  {
    hide Normalized, DescendantOrSame;
    if "*" in domains {
      return true;
    }
    for i := 0 to |capabilities|
      invariant forall i', j :: 0 <= i' < i && 0 <= j < |domains| ==>
        !DescendantOrSame(tags, Normalized(tags, capabilities[i']), Normalized(tags, domains[j]))
    {
      for j := 0 to |domains|
        invariant forall j' :: 0 <= j' < j ==>
          !DescendantOrSame(tags, Normalized(tags, capabilities[i]), Normalized(tags, domains[j']))
      {
        var matches := IsDescendantOrSame(tags, Normalized(tags, capabilities[i]), Normalized(tags, domains[j]));
        if matches {
          return true;
        }
      }
    }
    return false;
  }

  /** A flattened forest has no aliases, so a value normalizes to itself. */
  lemma {:induction false} FlattenedHasNoAliases(nodes: seq<Node>, parent: Option<string>)
    ensures forall tag :: tag in Preorder(nodes, parent) ==> tag.aliases == []
  {
    if nodes != [] {
      FlattenedHasNoAliases(nodes[0].children, Some(nodes[0].id));
      FlattenedHasNoAliases(nodes[1..], parent);
    }
  }

  ghost predicate SomeCapabilityInside(forest: seq<Node>, capabilities: seq<string>, domains: seq<string>) {
    exists i, j :: 0 <= i < |capabilities| && 0 <= j < |domains|
                && (capabilities[i] == domains[j] || LiesUnder(forest, capabilities[i], domains[j]))
  }

  /** Authorization on a nested forest: some capability is, or lies under, some domain. */
  lemma AuthorizationIsContainment(forest: seq<Node>, capabilities: seq<string>, domains: seq<string>)
    requires Distinct(Ids(forest))
    ensures DomainsMatch(Preorder(forest, None), capabilities, domains)
       <==> ("*" in domains || SomeCapabilityInside(forest, capabilities, domains))
  {
    var tags := Preorder(forest, None);
    FlattenedHasNoAliases(forest, None);
    assert forall value :: Normalized(tags, value) == value;
    forall capability, domain
      ensures DescendantOrSame(tags, capability, domain)
         <==> domain == "*" || capability == domain || LiesUnder(forest, capability, domain)
    {
      WalkIsContainment(forest, capability, domain);
    }
    assert forall j :: 0 <= j < |domains| && domains[j] == "*" ==> "*" in domains;
  }

  // ----- aliases -----

  /** In a table without ambiguous names a value stands for the tag that it names, by id or by alias. */
  lemma NamesItsTag(tags: seq<Tag>, k: nat, value: string)
    requires k < |tags| && Names(tags[k], value)
    requires forall j :: 0 <= j < |tags| && j != k ==> !Names(tags[j], value)
    ensures Normalized(tags, value) == tags[k].id
  {
    assert NormalizeTag(tags, value).Some?;
  }

  /** A capability and a domain match as the tags that they name do: the domain's tag is the capability's or an ancestor of it. */
  lemma AliasesMatchAsTheirTags(tags: seq<Tag>, capability: string, domain: string, k: nat, d: nat)
    requires k < |tags| && Names(tags[k], capability) && forall j :: 0 <= j < |tags| && j != k ==> !Names(tags[j], capability)
    requires d < |tags| && Names(tags[d], domain) && forall j :: 0 <= j < |tags| && j != d ==> !Names(tags[j], domain)
    requires domain != "*"
    ensures DomainsMatch(tags, [capability], [domain])
       <==> tags[d].id == "*" || tags[d].id == tags[k].id || Above(ById(tags), tags[k].id, tags[d].id)
  {
    hide Normalized, DescendantOrSame;
    NamesItsTag(tags, k, capability);
    NamesItsTag(tags, d, domain);
    OneMatches(tags, capability, domain);
    SameOrAbove(tags, tags[k].id, tags[d].id);
  }

  lemma OneMatches(tags: seq<Tag>, capability: string, domain: string)
    requires domain != "*"
    ensures DomainsMatch(tags, [capability], [domain]) <==> DescendantOrSame(tags, Normalized(tags, capability), Normalized(tags, domain))
  {
    hide Normalized, DescendantOrSame;
    if DescendantOrSame(tags, Normalized(tags, capability), Normalized(tags, domain)) {
      assert [capability][0] == capability && [domain][0] == domain;
    }
  }

  /** The domain is the id of a parent, of a parent's parent, and so on. */
  ghost predicate Above(m: map<string, Tag>, id: string, domain: string) {
    exists n: nat :: n > 0 && Ancestor(m, id, n) == Some(domain)
  }

  lemma SameOrAbove(tags: seq<Tag>, id: string, domain: string)
    ensures DescendantOrSame(tags, id, domain) <==> domain == "*" || domain == id || Above(ById(tags), id, domain)
  {
    hide ById, Ancestor;
    var m := ById(tags);
    NoStep(m, id);
    if Reaches(m, id, domain) {
      var n: nat :| Ancestor(m, id, n) == Some(domain);
      assert n > 0 || domain == id;
    }
  }

  lemma NoStep(m: map<string, Tag>, id: string)
    ensures Ancestor(m, id, 0) == Some(id)
  {
  }

  /** `default_tag_tree` of Root. */
  const DEFAULT_TAGS := [
    Tag("text-processing", "Text Processing", None, []),
    Tag("translation", "Translation", Some("text-processing"), ["translate"]),
    Tag("summarization", "Summarization", Some("text-processing"), ["summary"]),
    Tag("echo", "Echo", Some("text-processing"), []),
    Tag("mcp", "MCP", None, []),
    Tag("a2a", "A2A", None, [])]

  /** With it an alias is authorized by its tag's parent, and not the other way round. */
  lemma TranslateIsTextProcessing()
    ensures DomainsMatch(DEFAULT_TAGS, ["translate"], ["text-processing"])
    ensures !DomainsMatch(DEFAULT_TAGS, ["text-processing"], ["translate"])
  {
    hide DomainsMatch, ById, Ancestor, Names;
    DefaultNames();
    var m := ById(DEFAULT_TAGS);
    DistinctTable(DEFAULT_TAGS);
    AliasesMatchAsTheirTags(DEFAULT_TAGS, "translate", "text-processing", 1, 0);
    AliasesMatchAsTheirTags(DEFAULT_TAGS, "text-processing", "translate", 0, 1);
    assert m["translation"] == DEFAULT_TAGS[1] && m["text-processing"] == DEFAULT_TAGS[0];
    FirstAbove(m, "translation");
    NothingAbove(m, "text-processing", "translation");
  }

  lemma DefaultNames()
    ensures forall j :: 0 <= j < 6 ==> (Names(DEFAULT_TAGS[j], "translate") <==> j == 1)
    ensures forall j :: 0 <= j < 6 ==> (Names(DEFAULT_TAGS[j], "text-processing") <==> j == 0)
    ensures forall i, j :: 0 <= i < j < 6 ==> DEFAULT_TAGS[i].id != DEFAULT_TAGS[j].id
  {
  }

  lemma FirstAbove(m: map<string, Tag>, id: string)
    requires id in m && m[id].parent.Some?
    ensures Above(m, id, m[id].parent.value)
  {
    assert Ancestor(m, id, 0) == Some(id);
    assert Ancestor(m, id, 1) == ParentOf(m, id);
  }

  lemma NothingAbove(m: map<string, Tag>, id: string, domain: string)
    requires id in m ==> m[id].parent.None?
    ensures !Above(m, id, domain)
  {
    forall n: nat | n > 0 ensures Ancestor(m, id, n).None? {
      NoneAbove(m, id, n);
    }
  }

  lemma {:induction false} NoneAbove(m: map<string, Tag>, id: string, n: nat)
    requires n > 0 && (id in m ==> m[id].parent.None?)
    ensures Ancestor(m, id, n).None?
  {
    if n > 1 {
      NoneAbove(m, id, n - 1);
    }
  }
}
