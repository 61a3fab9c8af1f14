/** The family service: a store holding the last tree it was given, lookups
    in the fixed demonstration tree, and the member create/update helpers
    that stand in for the backend. */
module FamilyService {
  import opened Wrappers
  import opened FamilyModel
  import Decimal

  // ---------------------------------------------------------------------
  // The tree store.

  /** The service's state: the tree most recently set, if any. */
  datatype Store = Store(current: Option<FamilyTree>)

  /** A freshly constructed service holds no tree. */
  const InitialStore: Store := Store(None)

  /** The calls a client can make on the service. */
  datatype StoreCall =
    | SetTree(tree: FamilyTree)
    | GetTree(userId: Option<string>)
    | GetMember(memberId: string)
    | CreateMember(member: TreeMember, now: nat)
    | UpdateMember(memberId: string, patch: MemberPatch)
    | DeleteMember(memberId: string)

  /** The store after one call: only `setFamilyTree` publishes a tree; the
      getters and the member helpers return values and leave it alone. */
  function Apply(store: Store, call: StoreCall): (r: Store)
    ensures call.SetTree? ==> r == Store(Some(call.tree))
    ensures !call.SetTree? ==> r == store
  {
    match call
    case SetTree(t) => Store(Some(t))
    case _ => store
  }

  /** The store after a sequence of calls, in order. */
  function Run(store: Store, calls: seq<StoreCall>): (r: Store)
    ensures (forall i :: 0 <= i < |calls| ==> !calls[i].SetTree?) ==> r == store
    ensures (exists i :: 0 <= i < |calls| && calls[i].SetTree?) ==>
              exists i :: 0 <= i < |calls| && calls[i].SetTree? && r.current == Some(calls[i].tree)
    decreases |calls|
  {
    if calls == [] then store else Run(Apply(store, calls[0]), calls[1..])
  }

  /** The tree passed to the last `SetTree` among `calls`, if there is one. */
  function LastSet(calls: seq<StoreCall>): (r: Option<FamilyTree>)
    ensures r.Some? ==> exists i :: 0 <= i < |calls| && calls[i] == SetTree(r.value)
                                   && forall j :: i < j < |calls| ==> !calls[j].SetTree?
    ensures r.None? <==> forall i :: 0 <= i < |calls| ==> !calls[i].SetTree?
    decreases |calls|
  {
    if calls == [] then None
    else
      var last := calls[|calls| - 1];
      if last.SetTree? then Some(last.tree) else LastSet(calls[..|calls| - 1])
  }

  /** `currentFamilyTree` after any sequence of calls is the tree of the last
      `setFamilyTree`, or what the store held before when there was none. */
  lemma {:induction false} RunKeepsLastSet(store: Store, calls: seq<StoreCall>)
    ensures Run(store, calls).current == (if LastSet(calls).Some? then LastSet(calls) else store.current)
    decreases |calls|
  {
    if calls != [] {
      var rest := calls[1..];
      RunKeepsLastSet(Apply(store, calls[0]), rest);
      if rest == [] {
        assert calls == [calls[0]];
      } else {
        assert rest[..|rest| - 1] == calls[1..|calls| - 1];
        assert calls[..|calls| - 1][1..] == rest[..|rest| - 1];
        LastSetFirst(calls);
      }
    }
  }

  /** The last `SetTree` of a sequence is the one of its tail, unless the
      tail has none and the sequence starts with one. */
  lemma {:induction false} LastSetFirst(calls: seq<StoreCall>)
    requires |calls| >= 1
    ensures LastSet(calls) ==
            if LastSet(calls[1..]).Some? then LastSet(calls[1..])
            else if calls[0].SetTree? then Some(calls[0].tree) else None
    decreases |calls|
  {
    if |calls| > 1 {
      var init := calls[..|calls| - 1];
      LastSetFirst(init);
      assert init[1..] == calls[1..][..|calls[1..]| - 1];
      assert init[0] == calls[0];
    }
  }

  /** Starting from a fresh service, `currentFamilyTree` is null until the
      first `setFamilyTree`, and from then on is the last tree set. */
  lemma CurrentTreeFromFresh(calls: seq<StoreCall>)
    ensures (forall i :: 0 <= i < |calls| ==> !calls[i].SetTree?) ==> Run(InitialStore, calls).current == None
    ensures Run(InitialStore, calls).current == LastSet(calls)
  {
    RunKeepsLastSet(InitialStore, calls);
  }

  // ---------------------------------------------------------------------
  // The member helpers.

  /** A member with every field optional, as `Partial<FamilyMember>` allows. */
  datatype MemberPatch = MemberPatch(
    id: Option<string>,
    name: Option<string>,
    relation: Option<string>,
    generation: Option<int>,
    parentId: Option<string>,
    birthDate: Option<string>,
    avatar: Option<string>,
    children: Option<seq<string>>)

  /** A complete member seen as a partial one. */
  function AsPatch(m: TreeMember): MemberPatch {
    MemberPatch(Some(m.id), Some(m.name), Some(m.relation), m.generation, m.parentId,
                m.birthDate, m.avatar, Some(m.children))
  }

  /** `createFamilyMember`: the member with its id replaced by the decimal
      rendering of the clock reading `now`. */
  function CreateFamilyMember(member: TreeMember, now: nat): (r: TreeMember)
    ensures r.id == Decimal.NatToString(now)
    ensures r.(id := member.id) == member
  {
    member.(id := Decimal.NatToString(now))
  }

  /** `updateFamilyMember`: the patch with its id forced to `memberId`;
      fields the patch leaves out stay out. */
  function UpdateFamilyMember(memberId: string, patch: MemberPatch): (r: MemberPatch)
    ensures r.id == Some(memberId)
    ensures r.(id := patch.id) == patch
  {
    patch.(id := Some(memberId))
  }

  /** Updating twice under ids `a` then `b` is one update under `b`, and
      creating a member gives the same record as updating it with the
      freshly rendered id. */
  lemma UpdateCreateAgree(member: TreeMember, now: nat, patch: MemberPatch, a: string, b: string)
    ensures UpdateFamilyMember(b, UpdateFamilyMember(a, patch)) == UpdateFamilyMember(b, patch)
    ensures AsPatch(CreateFamilyMember(member, now)) == UpdateFamilyMember(Decimal.NatToString(now), AsPatch(member))
  {
  }

  /** `deleteFamilyMember` yields nothing and changes nothing. */
  lemma DeleteChangesNothing(store: Store, memberId: string)
    ensures Apply(store, DeleteMember(memberId)) == store
  {
  }

  // ---------------------------------------------------------------------
  // The demonstration tree.

  function Member(id: string, name: string, relation: string, generation: int,
                  parentId: Option<string>, birthDate: string, children: seq<string>): TreeMember
  {
    TreeMember(id, name, relation, Some(generation), parentId, Some(birthDate),
               Some("https://i.pravatar.cc/150?img=" + id), children)
  }

  /** `getDummyFamilyTree`: twelve members over four generations, rooted at
      the grandfather. */
  function DemoTree(): (t: FamilyTree)
    ensures |t.members| == 12 && t.rootMember == Some(t.members[0])
    ensures forall m :: m in t.members ==> m.generation.Some? && 0 <= m.generation.value <= 3
  {
    var grandfather := Member("1", "George Johnson Sr.", "Grandfather", 0, None, "1945-03-15", ["3", "5"]);
    var grandmother := Member("2", "Margaret Johnson", "Grandmother", 0, None, "1948-07-22", ["4", "6"]);
    var father := Member("3", "Robert Johnson", "Father", 1, Some("1"), "1970-05-10", ["7", "8"]);
    var mother := Member("4", "Susan Johnson", "Mother", 1, Some("2"), "1972-11-03", ["7", "8"]);
    var uncle := Member("5", "Michael Johnson", "Uncle", 1, Some("1"), "1975-02-14", ["9", "10"]);
    var aunt := Member("6", "Jennifer Johnson", "Aunt", 1, Some("2"), "1973-08-25", []);
    var you := Member("7", "David Johnson", "You", 2, Some("3"), "1995-12-20", ["11", "12"]);
    var sibling := Member("8", "Emily Johnson", "Sister", 2, Some("3"), "1998-06-08", []);
    var cousin1 := Member("9", "Thomas Johnson", "Cousin", 2, Some("5"), "1997-09-12", []);
    var cousin2 := Member("10", "Sarah Johnson", "Cousin", 2, Some("5"), "2000-01-30", []);
    var child1 := Member("11", "Lucas Johnson", "Son", 3, Some("7"), "2022-04-15", []);
    var child2 := Member("12", "Olivia Johnson", "Daughter", 3, Some("7"), "2023-10-22", []);
    FamilyTree(Some(grandfather),
               [grandfather, grandmother, father, mother, uncle, aunt,
                you, sibling, cousin1, cousin2, child1, child2])
  }

  /** `getFamilyTree`: the demonstration tree, whatever user is asked for. */
  function GetFamilyTree(userId: Option<string>): (t: FamilyTree)
    ensures t.rootMember.Some? && |t.members| == 12 && t.rootMember.value == t.members[0]
  {
    DemoTree()
  }

  /** `findMemberInDummyTree`, which `getFamilyMember` returns: the first
      demo member with the id, or null. */
  function FindMemberInDummyTree(memberId: string): (r: Option<TreeMember>)
    ensures r.Some? ==> r.value.id == memberId && r.value in DemoTree().members
    ensures r.None? <==> forall m :: m in DemoTree().members ==> m.id != memberId
  {
    FindById(DemoTree().members, memberId)
  }

  /** The demo tree has twelve members whose ids are "1" to "12" in order,
      hence distinct; its root is member "1" at generation 0, and no member
      has a smaller generation. */
  lemma DemoTreeShape()
    ensures var ms := DemoTree().members;
      && |ms| == 12
      && (forall i :: 0 <= i < 12 ==> ms[i].id == Decimal.NatToString(i + 1))
      && (forall i, j :: 0 <= i < j < 12 ==> ms[i].id != ms[j].id)
      && DemoTree().rootMember == Some(ms[0])
      && ms[0].id == "1" && ms[0].generation == Some(0)
      && (forall m :: m in ms ==> m.generation.Some? && 0 <= m.generation.value)
  {
    var ms := DemoTree().members;
    forall i | 0 <= i < 12 ensures ms[i].id == Decimal.NatToString(i + 1) {
      if i >= 9 {
        assert Decimal.NatToString(i + 1) == Decimal.NatToString(1) + [Decimal.DigitChar(i + 1 - 10)];
      }
    }
    forall i, j | 0 <= i < j < 12 ensures ms[i].id != ms[j].id {
      if ms[i].id == ms[j].id {
        Decimal.NatToStringInjective(i + 1, j + 1);
      }
    }
  }

  /** A position in the demo tree. */
  type DemoIndex = p: nat | p < 12

  /** The position in the demo tree of each member's parent; the two roots
      point at themselves. */
  const DemoParentAt: seq<DemoIndex> := [0, 1, 0, 1, 0, 1, 2, 2, 4, 4, 6, 6]

  lemma DemoParentOf(i: int)
    requires 0 <= i < 12
    ensures var ms := DemoTree().members;
      ms[i].parentId.Some? ==>
        && FindMemberInDummyTree(ms[i].parentId.value) == Some(ms[DemoParentAt[i]])
        && ms[i].generation.Some? && ms[DemoParentAt[i]].generation.Some?
        && ms[i].generation.value == ms[DemoParentAt[i]].generation.value + 1
  {
    var ms := DemoTree().members;
    DemoParentRecord(i);
    DemoLookups();
    if ms[i].parentId.Some? {
      var p := DemoParentAt[i];
      assert FindMemberInDummyTree(ms[p].id) == Some(ms[p]);
    }
  }

  /** The record at `DemoParentAt[i]` carries the parent id of member `i` and
      sits one generation above it. */
  lemma DemoParentRecord(i: int)
    requires 0 <= i < 12
    ensures var ms := DemoTree().members;
      ms[i].parentId.Some? ==>
        && ms[i].parentId.value == ms[DemoParentAt[i]].id
        && ms[i].generation.Some? && ms[DemoParentAt[i]].generation.Some?
        && ms[i].generation.value == ms[DemoParentAt[i]].generation.value + 1
  {
    // one case per member, so that each reads concrete records
    if i == 0 {} else if i == 1 {} else if i == 2 {} else if i == 3 {}
    else if i == 4 {} else if i == 5 {} else if i == 6 {} else if i == 7 {}
    else if i == 8 {} else if i == 9 {} else if i == 10 {} else {}
  }

  /** Looking up any demo member's id finds that member. */
  lemma DemoLookups()
    ensures var ms := DemoTree().members;
      forall p :: 0 <= p < |ms| ==> FindMemberInDummyTree(ms[p].id) == Some(ms[p])
  {
    var ms := DemoTree().members;
    DemoTreeShape();
    forall p | 0 <= p < |ms| ensures FindMemberInDummyTree(ms[p].id) == Some(ms[p]) {
      FindByIdDistinct(ms, p);
    }
  }

  /** Every parent id in the demo tree names a demo member, exactly one
      generation above the child. */
  lemma DemoParentsOneGenerationUp()
    ensures forall m :: m in DemoTree().members && m.parentId.Some? ==>
              && FindMemberInDummyTree(m.parentId.value).Some?
              && m.generation.Some?
              && FindMemberInDummyTree(m.parentId.value).value.generation.Some?
              && m.generation.value == FindMemberInDummyTree(m.parentId.value).value.generation.value + 1
  {
    var ms := DemoTree().members;
    forall m | m in ms && m.parentId.Some?
      ensures FindMemberInDummyTree(m.parentId.value).Some?
      ensures m.generation.Some?
      ensures FindMemberInDummyTree(m.parentId.value).value.generation.Some?
      ensures m.generation.value == FindMemberInDummyTree(m.parentId.value).value.generation.value + 1
    {
      var i :| 0 <= i < |ms| && ms[i] == m;
      DemoParentOf(i);
    }
  }
}
