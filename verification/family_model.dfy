/** The family-tree records shared by the tree page and the family service:
    a member keyed by a string id with an optional single `parentId`, and a
    tree that names its root and lists every member. */
module FamilyModel {
  import opened Wrappers

  /** One person as the tree page displays it. `generation` is absent when
      unknown; `children` lists the ids of the child records the data
      attaches (empty when none are attached). */
  datatype TreeMember = TreeMember(
    id: string,
    name: string,
    relation: string,
    generation: Option<int>,
    parentId: Option<string>,
    birthDate: Option<string>,
    avatar: Option<string>,
    children: seq<string>)

  datatype FamilyTree = FamilyTree(rootMember: Option<TreeMember>, members: seq<TreeMember>)

  /** `i` is the position of the first member of `ms` whose id is `id`. */
  ghost predicate IsFirstWithId(ms: seq<TreeMember>, id: string, i: int) {
    && 0 <= i < |ms|
    && ms[i].id == id
    && forall j :: 0 <= j < i ==> ms[j].id != id
  }

  /** The position of the element `find` returns for the test `m.id === id`. */
  function FindIndexById(ms: seq<TreeMember>, id: string): (r: Option<nat>)
    ensures r.Some? ==> IsFirstWithId(ms, id, r.value)
    ensures r.None? ==> forall j :: 0 <= j < |ms| ==> ms[j].id != id
  {
    if ms == [] then None
    else if ms[0].id == id then Some(0)
    else match FindIndexById(ms[1..], id)
      case None => None
      case Some(i) => Some(i + 1)
  }

  /** `members.find(m => m.id === id)`: the first member carrying `id`, or
      nothing when no member does. */
  function FindById(ms: seq<TreeMember>, id: string): (r: Option<TreeMember>)
    ensures r.None? <==> forall m :: m in ms ==> m.id != id
    ensures r.Some? ==> exists i :: IsFirstWithId(ms, id, i) && ms[i] == r.value
  {
    match FindIndexById(ms, id)
    case None => None
    case Some(i) => Some(ms[i])
  }

  /** When ids are distinct, looking up a member's id finds that member. */
  lemma FindByIdDistinct(ms: seq<TreeMember>, i: int)
    requires 0 <= i < |ms|
    requires forall j, k :: 0 <= j < k < |ms| ==> ms[j].id != ms[k].id
    ensures FindById(ms, ms[i].id) == Some(ms[i])
  {
    var r := FindIndexById(ms, ms[i].id);
    assert r.Some?;
  }
}
