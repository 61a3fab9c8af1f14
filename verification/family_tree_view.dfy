/** The tree page: members grouped into generation buckets, the buckets listed
    in ascending order with a display label each, and child/parent lookups
    along `parentId`. */
module FamilyTreeView {
  import opened Wrappers
  import opened FamilyModel
  import Decimal
  import Seqs

  /** Generation buckets, keyed by generation number. */
  type Groups = map<int, seq<TreeMember>>

  /** `member.generation || 0`: the bucket a member belongs to. */
  function GenerationOf(m: TreeMember): (g: int)
    ensures m.generation.Some? ==> g == m.generation.value
    ensures m.generation.None? ==> g == 0
  {
    m.generation.GetOr(0)
  }

  /** The generations that occur among `ms`. */
  ghost function GenerationsOf(ms: seq<TreeMember>): set<int> {
    set m | m in ms :: GenerationOf(m)
  }

  /** The members of `ms` in generation `g`, in their order in `ms`. */
  function InGeneration(ms: seq<TreeMember>, g: int): seq<TreeMember>
  {
    if ms == [] then []
    else
      var last := ms[|ms| - 1];
      var rest := InGeneration(ms[..|ms| - 1], g);
      if GenerationOf(last) == g then rest + [last] else rest
  }

  /** A bucket holds exactly the members of its generation, each as often
      as it occurs, in list order. */
  lemma {:induction false} InGenerationSpec(ms: seq<TreeMember>, g: int)
    ensures forall m :: m in InGeneration(ms, g) <==> m in ms && GenerationOf(m) == g
    ensures forall m :: multiset(InGeneration(ms, g))[m] ==
              if GenerationOf(m) == g then multiset(ms)[m] else 0
    ensures Seqs.Subsequence(InGeneration(ms, g), ms)
  {
    if ms != [] {
      var last := ms[|ms| - 1];
      var init := ms[..|ms| - 1];
      InGenerationSpec(init, g);
      assert ms == init + [last];
      var r := InGeneration(ms, g);
      if GenerationOf(last) != g && r != [] {
        assert r[|r| - 1] in r;
      }
    }
  }

  /** The buckets that grouping `ms` into an empty map produces. */
  ghost function Grouped(ms: seq<TreeMember>): Groups {
    map g | g in GenerationsOf(ms) :: InGeneration(ms, g)
  }

  /** `groups.get(g) || []`, i.e. `getMembersForGeneration`. */
  function MembersForGeneration(groups: Groups, g: int): (r: seq<TreeMember>)
    ensures g !in groups ==> r == []
    ensures g in groups ==> r == groups[g]
  {
    if g in groups then groups[g] else []
  }

  /** `groupMembersByGeneration`: appends each member, in list order, to the
      bucket of its generation, creating the bucket on first use. With no
      tree the buckets are left as they are. */
  method GroupMembersByGeneration(tree: Option<FamilyTree>, groups: Groups) returns (r: Groups)
    ensures tree.None? ==> r == groups
    ensures tree.Some? ==> r.Keys == groups.Keys + GenerationsOf(tree.value.members)
    ensures tree.Some? ==> forall g :: g in r ==>
              r[g] == MembersForGeneration(groups, g) + InGeneration(tree.value.members, g)
    ensures tree.Some? && groups == map[] ==> r == Grouped(tree.value.members)
  {
    r := groups;
    if tree.None? {
      return;
    }
    var ms := tree.value.members;
    var i := 0;
    while i < |ms|
      invariant 0 <= i <= |ms|
      invariant GroupedPrefix(groups, ms, i, r)
    {
      var m := ms[i];
      var g := GenerationOf(m);
      // a missing bucket is created empty, then the member is pushed onto it
      var r' := r[g := MembersForGeneration(r, g) + [m]];
      GroupStep(groups, ms, i, r);
      r := r';
      i := i + 1;
    }
    assert ms[..i] == ms;
    if groups == map[] {
      GroupedCharacterized(ms, r);
    }
  }

  /** The buckets after the first `i` members of `ms` were added to `groups`. */
  ghost predicate GroupedPrefix(groups: Groups, ms: seq<TreeMember>, i: int, r: Groups)
    requires 0 <= i <= |ms|
  {
    && r.Keys == groups.Keys + GenerationsOf(ms[..i])
    && forall g :: g in r ==> r[g] == MembersForGeneration(groups, g) + InGeneration(ms[..i], g)
  }

  lemma GroupStep(groups: Groups, ms: seq<TreeMember>, i: int, r: Groups)
    requires 0 <= i < |ms|
    requires GroupedPrefix(groups, ms, i, r)
    ensures GroupedPrefix(groups, ms, i + 1,
                          r[GenerationOf(ms[i]) := MembersForGeneration(r, GenerationOf(ms[i])) + [ms[i]]])
  {
    var m := ms[i];
    var g := GenerationOf(m);
    var r' := r[g := MembersForGeneration(r, g) + [m]];
    assert ms[..i + 1] == ms[..i] + [m];
    GenerationsOfSnoc(ms[..i], m);
    forall k | k in r'
      ensures r'[k] == MembersForGeneration(groups, k) + InGeneration(ms[..i + 1], k)
    {
      if k in r {
        BucketStep(groups, ms, i, r, k);
      } else {
        assert k == g && k !in groups && k !in GenerationsOf(ms[..i]);
        NotOccurring(ms[..i], g);
        InGenerationPrefix(ms, i, k);
      }
    }
  }

  lemma BucketStep(groups: Groups, ms: seq<TreeMember>, i: int, r: Groups, k: int)
    requires 0 <= i < |ms|
    requires k in r
    requires r[k] == MembersForGeneration(groups, k) + InGeneration(ms[..i], k)
    ensures r[GenerationOf(ms[i]) := MembersForGeneration(r, GenerationOf(ms[i])) + [ms[i]]][k] ==
            MembersForGeneration(groups, k) + InGeneration(ms[..i + 1], k)
  {
    InGenerationPrefix(ms, i, k);
  }

  /** A generation that does not occur among `ms` has an empty bucket. */
  lemma NotOccurring(ms: seq<TreeMember>, g: int)
    requires g !in GenerationsOf(ms)
    ensures InGeneration(ms, g) == []
  {
    InGenerationSpec(ms, g);
  }

  lemma InGenerationSnoc(ms: seq<TreeMember>, m: TreeMember, g: int)
    ensures InGeneration(ms + [m], g) == InGeneration(ms, g) + (if GenerationOf(m) == g then [m] else [])
  {
    assert (ms + [m])[..|ms|] == ms;
  }

  lemma InGenerationPrefix(ms: seq<TreeMember>, i: int, g: int)
    requires 0 <= i < |ms|
    ensures InGeneration(ms[..i + 1], g) ==
            InGeneration(ms[..i], g) + (if GenerationOf(ms[i]) == g then [ms[i]] else [])
  {
    assert ms[..i + 1][..i] == ms[..i];
  }

  lemma GenerationsOfSnoc(ms: seq<TreeMember>, m: TreeMember)
    ensures GenerationsOf(ms + [m]) == GenerationsOf(ms) + {GenerationOf(m)}
  {
    assert forall x :: x in ms + [m] <==> x in ms || x == m;
  }

  /** Buckets keyed by exactly the occurring generations, each holding that
      generation's members, are the ones `Grouped` describes. */
  lemma GroupedCharacterized(ms: seq<TreeMember>, r: Groups)
    requires r.Keys == GenerationsOf(ms)
    requires forall g :: g in r ==> r[g] == InGeneration(ms, g)
    ensures r == Grouped(ms)
  {
  }

  /** The least element of a non-empty set of generations. */
  function Least(s: set<int>): (m: int)
    requires s != {}
    ensures m in s && forall x :: x in s ==> m <= x
  {
    LeastExists(s);
    var m :| m in s && forall x :: x in s ==> m <= x;
    m
  }

  lemma LeastExists(s: set<int>)
    requires s != {}
    ensures exists m :: m in s && forall x :: x in s ==> m <= x
    decreases |s|
  {
    // a non-empty set has an element; the solver needs the emptiness case ruled out explicitly
    if forall z :: z !in s { assert false; }
    var y :| y in s;
    if s != {y} {
      var s' := s - {y};
      LeastExists(s');
      var m :| m in s' && forall x :: x in s' ==> m <= x;
      var least := if y < m then y else m;
      forall x | x in s ensures least <= x {
        if x != y { assert x in s'; }
      }
    }
  }

  /** `Array.from(keys).sort((a, b) => a - b)`: the keys in ascending order. */
  function SortedKeys(s: set<int>): (r: seq<int>)
    ensures forall i, j :: 0 <= i < j < |r| ==> r[i] < r[j]
    ensures forall g :: g in r <==> g in s
    ensures |r| == |s|
    decreases |s|
  {
    if s == {} then []
    else
      var m := Least(s);
      [m] + SortedKeys(s - {m})
  }

  /** `getSortedGenerations`. */
  function SortedGenerations(groups: Groups): (r: seq<int>)
    ensures forall i, j :: 0 <= i < j < |r| ==> r[i] < r[j]
    ensures forall g :: g in r <==> g in groups
  {
    SortedKeys(groups.Keys)
  }

  /** `getGenerationLabel`: a fixed label for generations 0 to 4, otherwise
      "Generation " followed by the number. */
  function GenerationLabel(g: int): (r: string)
    ensures g == 0 ==> r == "Grandparents"
    ensures g == 1 ==> r == "Parents"
    ensures g == 2 ==> r == "Your Generation"
    ensures g == 3 ==> r == "Children"
    ensures g == 4 ==> r == "Grandchildren"
    ensures (g < 0 || 4 < g) ==> |r| > 11 && r[..11] == "Generation " && r[11..] == Decimal.IntToString(g)
  {
    match g
    case 0 => "Grandparents"
    case 1 => "Parents"
    case 2 => "Your Generation"
    case 3 => "Children"
    case 4 => "Grandchildren"
    case _ => "Generation " + Decimal.IntToString(g)
  }

  /** The members of `ms` whose `parentId` is `id`, in their order in `ms`. */
  function ChildrenOf(ms: seq<TreeMember>, id: string): (r: seq<TreeMember>)
    ensures forall c :: c in r <==> c in ms && c.parentId == Some(id)
    ensures forall c :: multiset(r)[c] == if c.parentId == Some(id) then multiset(ms)[c] else 0
    ensures Seqs.Subsequence(r, ms)
  {
    if ms == [] then []
    else
      var last := ms[|ms| - 1];
      var rest := ChildrenOf(ms[..|ms| - 1], id);
      assert ms == ms[..|ms| - 1] + [last];
      if last.parentId == Some(id) then rest + [last] else rest
  }

  /** `getChildren`: every member whose `parentId` equals the member's id,
      as often as it occurs and in list order. */
  function GetChildren(tree: FamilyTree, member: TreeMember): (r: seq<TreeMember>)
    ensures forall c :: c in r <==> c in tree.members && c.parentId == Some(member.id)
    ensures forall c :: multiset(r)[c] ==
              if c.parentId == Some(member.id) then multiset(tree.members)[c] else 0
    ensures Seqs.Subsequence(r, tree.members)
  {
    ChildrenOf(tree.members, member.id)
  }

  /** `hasChildren`. */
  function HasChildren(tree: FamilyTree, member: TreeMember): (b: bool)
    ensures b <==> exists c :: c in tree.members && c.parentId == Some(member.id)
  {
    var kids := GetChildren(tree, member);
    assert |kids| > 0 ==> kids[0] in kids;
    |kids| > 0
  }

  /** `getParent`: nothing when `parentId` is missing or the empty string
      (both falsy); otherwise the first member whose id is `parentId`. */
  function GetParent(tree: FamilyTree, member: TreeMember): (r: Option<TreeMember>)
    ensures (member.parentId.None? || member.parentId == Some("")) ==> r.None?
    ensures r.Some? <==>
              && member.parentId.Some? && member.parentId.value != ""
              && exists p :: p in tree.members && p.id == member.parentId.value
    ensures r.Some? ==> exists i :: IsFirstWithId(tree.members, member.parentId.value, i)
                                   && tree.members[i] == r.value
  {
    match member.parentId
    case None => None
    case Some(pid) => if pid == "" then None else FindById(tree.members, pid)
  }

  // ---------------------------------------------------------------------
  // Grouping into an empty map partitions the members.

  /** The buckets listed for the generations `ks`, one after another. */
  function Flatten(ks: seq<int>, groups: Groups): seq<TreeMember> {
    if ks == [] then [] else MembersForGeneration(groups, ks[0]) + Flatten(ks[1..], groups)
  }

  /** The sum of the sizes of the buckets listed for `ks`. */
  function SizeSum(ks: seq<int>, groups: Groups): nat {
    if ks == [] then 0 else |MembersForGeneration(groups, ks[0])| + SizeSum(ks[1..], groups)
  }

  function FlattenGen(ks: seq<int>, ms: seq<TreeMember>): seq<TreeMember> {
    if ks == [] then [] else InGeneration(ms, ks[0]) + FlattenGen(ks[1..], ms)
  }

  lemma {:induction false} FlattenSize(ks: seq<int>, groups: Groups)
    ensures |Flatten(ks, groups)| == SizeSum(ks, groups)
  {
    if ks != [] {
      FlattenSize(ks[1..], groups);
    }
  }

  lemma {:induction false} FlattenGrouped(ks: seq<int>, ms: seq<TreeMember>)
    requires forall k :: k in ks ==> k in GenerationsOf(ms)
    ensures Flatten(ks, Grouped(ms)) == FlattenGen(ks, ms)
  {
    if ks != [] {
      FlattenGrouped(ks[1..], ms);
    }
  }

  lemma {:induction false} FlattenGenEmpty(ks: seq<int>)
    ensures FlattenGen(ks, []) == []
  {
    if ks != [] {
      FlattenGenEmpty(ks[1..]);
    }
  }

  lemma {:induction false} FlattenGenSnoc(ks: seq<int>, ms: seq<TreeMember>, x: TreeMember)
    requires Seqs.Distinct(ks)
    ensures multiset(FlattenGen(ks, ms + [x])) ==
            multiset(FlattenGen(ks, ms)) + (if GenerationOf(x) in ks then multiset{x} else multiset{})
  {
    if ks != [] {
      var tail := ks[1..];
      DistinctTail(ks);
      FlattenGenSnoc(tail, ms, x);
      InGenerationSnoc(ms, x, ks[0]);
      var g := GenerationOf(x);
      var one: multiset<TreeMember> := if g == ks[0] then multiset{x} else multiset{};
      var rest: multiset<TreeMember> := if g in tail then multiset{x} else multiset{};
      assert multiset(InGeneration(ms + [x], ks[0])) == multiset(InGeneration(ms, ks[0])) + one;
      assert multiset(FlattenGen(ks, ms + [x])) ==
             multiset(InGeneration(ms + [x], ks[0])) + multiset(FlattenGen(tail, ms + [x]));
      assert multiset(FlattenGen(ks, ms)) ==
             multiset(InGeneration(ms, ks[0])) + multiset(FlattenGen(tail, ms));
      HeadNotInTail(ks);
      assert (g in ks) <==> (g == ks[0] || g in tail);
    }
  }

  lemma DistinctTail(ks: seq<int>)
    requires ks != [] && Seqs.Distinct(ks)
    ensures Seqs.Distinct(ks[1..])
  {
    var tail := ks[1..];
    forall i, j | 0 <= i < j < |tail| ensures tail[i] != tail[j] {
      assert tail[i] == ks[i + 1] && tail[j] == ks[j + 1];
    }
  }

  lemma HeadNotInTail(ks: seq<int>)
    requires ks != [] && Seqs.Distinct(ks)
    ensures ks[0] !in ks[1..]
  {
  }

  lemma {:induction false} FlattenGenPermutation(ks: seq<int>, ms: seq<TreeMember>)
    requires Seqs.Distinct(ks)
    requires forall m :: m in ms ==> GenerationOf(m) in ks
    ensures multiset(FlattenGen(ks, ms)) == multiset(ms)
  {
    if ms == [] {
      FlattenGenEmpty(ks);
    } else {
      var init := ms[..|ms| - 1];
      var last := ms[|ms| - 1];
      assert ms == init + [last];
      FlattenGenPermutation(ks, init);
      FlattenGenSnoc(ks, init, last);
    }
  }

  /** Grouping the members of a tree into empty buckets puts every member in
      exactly the bucket of its generation; listing the buckets in ascending
      order yields the members again, each as often as it occurs, so the
      bucket sizes add up to the number of members. */
  lemma GroupsPartitionMembers(ms: seq<TreeMember>)
    ensures forall m :: m in ms ==> GenerationOf(m) in Grouped(ms)
    ensures forall m, g :: m in ms && g in Grouped(ms) ==> (m in Grouped(ms)[g] <==> g == GenerationOf(m))
    ensures multiset(Flatten(SortedGenerations(Grouped(ms)), Grouped(ms))) == multiset(ms)
    ensures SizeSum(SortedGenerations(Grouped(ms)), Grouped(ms)) == |ms|
  {
    var r := Grouped(ms);
    var ks := SortedGenerations(r);
    forall g | g in r
      ensures forall m :: m in r[g] <==> m in ms && GenerationOf(m) == g
    {
      InGenerationSpec(ms, g);
    }
    assert Seqs.Distinct(ks);
    FlattenGrouped(ks, ms);
    FlattenGenPermutation(ks, ms);
    FlattenSize(ks, r);
    assert |multiset(Flatten(ks, r))| == |multiset(ms)|;
  }

  // ---------------------------------------------------------------------
  // Labels, children and parents.

  /** Different generations are shown under different labels. */
  lemma GenerationLabelsDistinct(a: int, b: int)
    requires a != b
    ensures GenerationLabel(a) != GenerationLabel(b)
  {
    var la, lb := GenerationLabel(a), GenerationLabel(b);
    if (a < 0 || 4 < a) && (b < 0 || 4 < b) {
      if la == lb {
        assert la[11..] == lb[11..];
        Decimal.IntToStringInjective(a, b);
      }
    } else if a < 0 || 4 < a {
      assert la[0] == 'G' && la[1] == 'e';
    } else if b < 0 || 4 < b {
      assert lb[0] == 'G' && lb[1] == 'e';
    }
  }

  /** A member has children exactly when some member names it as parent,
      and then each child's parent lookup leads back to a member with the
      parent's id. */
  lemma ChildParentAgree(tree: FamilyTree, member: TreeMember, child: TreeMember)
    requires member.id != "" && member in tree.members
    requires child in GetChildren(tree, member)
    ensures HasChildren(tree, member)
    ensures GetParent(tree, child).Some? && GetParent(tree, child).value.id == member.id
  {
  }
}
