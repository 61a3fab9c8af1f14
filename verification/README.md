# Family tree front end — a Dafny model of its logic

The application lets a signed-in user browse a family tree grouped by generation and add or edit members through a dialog. Its logic lives in four TypeScript files. This project models each as a Dafny module of pure functions over immutable values:

- **Tree page** (`FamilyTreeView`). It groups members into generation buckets, lists the buckets in ascending order with labels, and looks up children and parent along `parentId`.
- **Member dialog** (`MemberDialog`). It loads a member into form controls and turns the form into a person payload. On save it calls either the create or the update backend call.
- **Authentication service** (`AuthService`, with `UserJson` for the stored user text). The session holds the current user, the signed-in flag and browser storage. It supports restore on construction, login against the demo accounts, register and logout.
- **Family service** (`FamilyService`). It stores the last tree set, and provides lookups in the fixed demo tree and the member create/update helpers.

Shared pieces:
- `FamilyModel`: the member/tree records and the first-match lookup by id.
- `Decimal`: integer-to-text rendering, as in `${n}` and `Date.now().toString()`.
- `Seqs`: the subsequence predicate.
- `Wrappers`: `Option` and `Result`.

Time, randomness, storage and observables are abstracted:
- A clock reading (`now: nat`) and the random token digits are parameters.
- Browser storage is a `map<string, string>`.
- Every asynchronous call is a synchronous function returning the value the observable would emit.

The application contains no tree-construction algorithm: no code builds a tree from person, relationship and parent-child rows. Trees come from the hard-coded demo tree, so the model follows the code and has no builder.

The tree page and the family service use a member keyed by a string id with a single optional `parentId` (`TreeMember`). The dialog edits the numeric-id person shape from `src/app/models/family.model.ts` (`PersonMember`). The model keeps both shapes, as the code does.

## Model

| member | source | states |
|---|---|---|
| FamilyModel.FindById | src/app/services/family.service.ts:241-243 | the result is the first member with the id, and it is absent exactly when no member has that id |
| FamilyModel.FindIndexById | src/app/pages/family-tree/family-tree.component.ts:94 | the index found is the first whose id matches; none exactly when no id matches |
| FamilyTreeView.GroupMembersByGeneration | src/app/pages/family-tree/family-tree.component.ts:32-45 | with no tree the buckets are unchanged; otherwise the keys are the old keys plus every member's generation (missing counts as 0), and each bucket is its old content followed by that generation's members in list order; from an empty map it yields exactly `Grouped` |
| FamilyTreeView.GenerationOf | src/app/pages/family-tree/family-tree.component.ts:39 | a member's generation, and 0 when it has none |
| FamilyTreeView.InGenerationSpec | src/app/pages/family-tree/family-tree.component.ts:38-44 | a bucket holds exactly the members of its generation, each as often as in the input, as a subsequence of the input (relative order kept) |
| FamilyTreeView.GroupsPartitionMembers | src/app/pages/family-tree/family-tree.component.ts:38-44 | grouping into an empty map puts each member in exactly the bucket of its generation; the buckets, read in sorted order, are a permutation of the members, so their sizes sum to the member count |
| FamilyTreeView.SortedGenerations | src/app/pages/family-tree/family-tree.component.ts:50-52 | strictly ascending, and containing exactly the map's keys |
| FamilyTreeView.MembersForGeneration | src/app/pages/family-tree/family-tree.component.ts:57-59 | the bucket for a present generation, `[]` for an absent one |
| FamilyTreeView.GenerationLabel | src/app/pages/family-tree/family-tree.component.ts:64-73 | the five fixed labels for 0 to 4; otherwise "Generation " followed by the decimal rendering of the number |
| FamilyTreeView.GenerationLabelsDistinct | src/app/pages/family-tree/family-tree.component.ts:64-73 | different generations always get different labels |
| FamilyTreeView.GetChildren | src/app/pages/family-tree/family-tree.component.ts:78-80 | exactly the members whose `parentId` is the member's id, with their multiplicities, in list order |
| FamilyTreeView.HasChildren | src/app/pages/family-tree/family-tree.component.ts:85-87 | true exactly when some member names this member as parent |
| FamilyTreeView.GetParent | src/app/pages/family-tree/family-tree.component.ts:92-95 | none when `parentId` is missing or empty; otherwise the first member with that id, none when there is none |
| FamilyTreeView.ChildParentAgree | src/app/pages/family-tree/family-tree.component.ts:78-95 | for a listed member with a non-empty id, each child found makes `hasChildren` true, and the child's parent lookup finds a member with that id |
| MemberDialog.PatchFromMember | src/app/pages/family-tree/family-member-dialog.component.ts:59-68 | names become the member's names or ""; gender the member's non-empty gender or "UNKNOWN"; each optional text reads back as the member's value with "" taken as absent |
| MemberDialog.ExistingMembers | src/app/pages/family-tree/family-member-dialog.component.ts:56-57 | the current tree's members, or `[]` when no tree is set |
| MemberDialog.ExistingMembersFollowStore | src/app/pages/family-tree/family-member-dialog.component.ts:56-57 | a dialog opened after any sequence of family-service calls offers the members of the last tree set, and none when no tree was set |
| MemberDialog.Open | src/app/pages/family-tree/family-member-dialog.component.ts:39-70 | a fresh form is empty with gender "UNKNOWN"; a supplied member is patched in; the existing members come from the current tree |
| MemberDialog.BuildPayload | src/app/pages/family-tree/family-member-dialog.component.ts:75-84 | names are copied; the gender is the control's text, or "UNKNOWN" when it is empty; each optional text is absent when its control is empty and otherwise is the control's text |
| MemberDialog.Save | src/app/pages/family-tree/family-member-dialog.component.ts:72-95 | a call is made exactly when both names are filled in, and it carries the payload; it is an update by the member's id exactly in edit mode with a member, otherwise a create; the dialog closes exactly when a call is made and it emits a record, with that record and action "updated" or "created" to match the call; it stays open when the call fails or emits nothing |
| MemberDialog.FormValid | src/app/pages/family-tree/family-member-dialog.component.ts:47-48 | the form is valid exactly when both required name controls are non-empty |
| MemberDialog.CancelDistinctFromSave | src/app/pages/family-tree/family-member-dialog.component.ts:86-99 | cancel makes no call and closes, and no save ever closes with the cancel action |
| MemberDialog.Cancel | src/app/pages/family-tree/family-member-dialog.component.ts:97-99 | no backend call; closes with action "cancel" |
| MemberDialog.MemberRoundTrip | src/app/pages/family-tree/family-member-dialog.component.ts:59-94 | the payload saved from a freshly opened member gives back its names, its gender (or "UNKNOWN") and every non-empty optional text; the form is valid exactly when both names are present, and then an edit saves it as an update of that member's id |
| MemberDialog.FormRoundTrip | src/app/pages/family-tree/family-member-dialog.component.ts:59-84 | a valid form with a gender, saved and reopened as the resulting member, shows the same form again |
| UserJson.Encode | src/app/services/auth.service.ts:136 | the stored user text is an object text, starting with `{`, so it is never empty and never "null" |
| UserJson.Decode | src/app/services/auth.service.ts:147 | only an object text can decode to a user; the empty text and "null" never do |
| UserJson.StringRoundTrip | src/app/services/auth.service.ts:136 | the escaped string literal written for a stored text reads back as that text, leaving what follows |
| UserJson.RoundTrip | src/app/services/auth.service.ts:134-148 | the user text written at login reads back as the same user |
| AuthService.GetStoredUser | src/app/services/auth.service.ts:145-148 | no key, an empty text or the text "null" gives no user; any other text succeeds exactly when it decodes, giving the decoded user, and fails otherwise; a text written for a user restores that user |
| AuthService.GetToken | src/app/services/auth.service.ts:160-162 | the stored `authToken` value, absent exactly when the key is absent |
| AuthService.Construct | src/app/services/auth.service.ts:30-37 | succeeds exactly when the stored user can be read; then the user is the stored one, the flag agrees with it and storage is untouched |
| AuthService.ConstructConsistent | src/app/services/auth.service.ts:31-35 | a constructed session satisfies the invariant |
| AuthService.FindByEmail | src/app/services/auth.service.ts:69-71 | the first account with exactly that email; none when no account has it |
| AuthService.Authenticate | src/app/services/auth.service.ts:69-73 | succeeds exactly when the first account with the email exists and has the given password, and then returns that first account |
| AuthService.DummyToken | src/app/services/auth.service.ts:153-155 | the token is "dummy_token_" followed by the random digits |
| AuthService.HandleAuthResponse | src/app/services/auth.service.ts:134-140 | the user is the response's user and the flag is set; storage gains both keys, the token under `authToken`, and a `currentUser` text that restores the user; every other key is unchanged |
| AuthService.Login | src/app/services/auth.service.ts:58-93 | signs in exactly when the credentials match; then the response user is the account's user with a fresh token, and `getToken` returns the response token; otherwise the error is "Invalid email or password" and the session is unchanged |
| AuthService.Register | src/app/services/auth.service.ts:101-116 | the session is unchanged; the user carries the given email and name, the clock reading as id and no token, and the response carries a fresh token |
| AuthService.Logout | src/app/services/auth.service.ts:121-129 | no user, flag cleared, both keys removed and every other entry kept |
| AuthService.StepsConsistent | src/app/services/auth.service.ts:121-140 | from a consistent session, any sequence of logins, registrations and logouts keeps the flag equal to "a user is present", and a reload restores the resulting session |
| AuthService.ReloadRestores | src/app/services/auth.service.ts:30-37 | constructing from a consistent session's storage gives back that session |
| AuthService.LogoutIdempotent | src/app/services/auth.service.ts:121-129 | after logout there is no token and no stored user, and logging out again changes nothing |
| AuthService.DemoLogins | src/app/services/auth.service.ts:15-28 | with the demo accounts, login succeeds exactly for the two demo emails with "password123" |
| FamilyService.LastSet | src/app/services/family.service.ts:249-251 | the tree of a `SetTree` call after which no call is a `SetTree`; absent exactly when no call is a `SetTree` |
| FamilyService.Apply | src/app/services/family.service.ts:249-258 | `setFamilyTree` makes its tree the current one; every other call (the getters, create, update, delete) leaves the store as it was |
| FamilyService.Run | src/app/services/family.service.ts:22-83 | calls that include no `setFamilyTree` leave the store as it was; when some `setFamilyTree` is among them, the current tree is the tree of one of those calls |
| FamilyService.RunKeepsLastSet | src/app/services/family.service.ts:249-258 | after any sequence of calls the current tree is the last one set, or the earlier one when none was set; the getters and member helpers never change it |
| FamilyService.CurrentTreeFromFresh | src/app/services/family.service.ts:12-15 | a new service's current tree is null until the first `setFamilyTree`, and from then on is the last tree set |
| FamilyService.CreateFamilyMember | src/app/services/family.service.ts:47-55 | the id is the decimal clock reading and every other field is the input's |
| FamilyService.UpdateFamilyMember | src/app/services/family.service.ts:63-71 | the id is the given one and every other field is the patch's, including left-out ones |
| FamilyService.UpdateCreateAgree | src/app/services/family.service.ts:47-71 | a second update overrides the first id, and create equals an update of the full member with the fresh id |
| FamilyService.DeleteChangesNothing | src/app/services/family.service.ts:78-83 | deleting leaves the store as it was |
| FamilyService.DemoTree | src/app/services/family.service.ts:88-233 | twelve members rooted at the first one, every generation defined and between 0 and 3 |
| FamilyService.GetFamilyTree | src/app/services/family.service.ts:22-28 | a tree of 12 members whose root is its first member |
| FamilyService.FindMemberInDummyTree | src/app/services/family.service.ts:239-244 | a member found has the id and is a demo member; none exactly when no demo member has the id |
| FamilyService.DemoTreeShape | src/app/services/family.service.ts:88-233 | 12 members with ids "1" to "12" in order, hence distinct; the root is member "1" at generation 0; every generation is defined and at least 0 |
| FamilyService.DemoParentOf | src/app/services/family.service.ts:98-205 | each demo member with a parent id finds its parent by lookup, one generation above it |
| FamilyService.DemoParentsOneGenerationUp | src/app/services/family.service.ts:98-205 | every parent id in the demo tree resolves to a demo member exactly one generation above the child |
| Decimal.NatToString | src/app/services/family.service.ts:53 | decimal digits with no leading zero (only "0" starts with 0), which `ParseDigits` reads back as the number (`NatRoundTrip`) |
| Decimal.IntToString | src/app/pages/family-tree/family-tree.component.ts:72 | a leading "-" exactly for negative values, and `ParseInt` reads the text back as the number (`IntRoundTrip`) |
| Decimal.NatRoundTrip | src/app/services/auth.service.ts:113 | reading the rendered clock value back gives the clock value |
| Decimal.IntRoundTrip | src/app/pages/family-tree/family-tree.component.ts:72 | reading a rendered generation back gives the generation |
| Decimal.IntToStringInjective | src/app/pages/family-tree/family-tree.component.ts:72 | distinct integers render as distinct decimal texts |

## Left out

- The tree-construction engine (assembly of person, relationship and parent-child rows, generation assignment, root choice): no source file implements it; trees come from the demo data.
- Observables, `BehaviorSubject` and the 500 ms delay in `login`: each call is modelled as a synchronous function returning the value it would emit.
- `Math.random` and `Date.now`: the random base-36 digits of a token and the clock reading are parameters.
- FamilyTreeView.GroupMembersByGeneration: the guard for a tree whose `members` is missing is not modelled, because `FamilyTree.members` is always present here; only a missing tree is.
- FamilyTreeView.GetChildren, HasChildren, GetParent: the source reads the component's bound tree and throws a TypeError when no tree, or a tree without `members`, is bound; `getParent` throws only when `parentId` is truthy. The model passes the tree as a parameter that always has members, so these errors are not modelled.
- FamilyTreeView.GenerationOf: `NaN` and non-integral generations are not modelled; generations are integers.
- Decimal.NatToString: the exponent notation JavaScript uses from 10^21 upward is not modelled.
- AuthService.GetStoredUser: `JSON.parse` accepts more texts than the model does. The model reads "", "null", and a user object with the keys, key order and layout the service writes. Any JSON string escape is accepted in the values except a `\u` escape of a surrogate code unit, so an escaped surrogate pair such as `\ud83d\ude00` is refused, while `JSON.parse` reads it as one character. Other texts `JSON.parse` would accept also make construction fail: whitespace, other key orders, extra keys, and values that are not user records. Dafny strings hold Unicode scalar values, so the lone surrogates a JavaScript string can hold, which `JSON.stringify` writes as `\udxxx`, cannot be represented.
- AuthService.ConstructConsistent: holds for storage the model can read, not for every text `JSON.parse` accepts. A stored "0", "false" or "\"\"" parses to a falsy value that is not null. The service then exposes that value as the current user while `!!storedUser` sets the flag to false, so the flag and the user disagree. The model refuses those texts, so it does not reproduce this state.
- Storage exceptions (quota, disabled storage) are not modelled.
- The `handleAuthError` helper is only referenced from commented-out code and is not modelled.
- `createPerson` and `updatePerson` are not part of this model: the dialog's `Save` returns the call it makes. It takes as a parameter what the call emits, with `None` standing for a call that fails or never emits.
- A dialog opened with no data object, where `save` would fail on `data.mode`, is not modelled.
- `deleteFamilyMember` has no effect and returns nothing; it is modelled only as a store call that changes nothing.
- The demo members' `children` arrays hold member objects; the model records their ids, and "no array" is recorded as an empty list. They are not consistent with `parentId`: the mother, id "4", lists members "7" and "8", whose `parentId` is "3".
- Angular's `Validators.required` is modelled as "the text is non-empty".
- The HTTP interceptor, the dashboard and login pages, routing and notifications are outside this model.
