# MotivGym group registry, modelled in Dafny

MotivGym is a single-page fitness-group tracker. All of its logic lives in
the `MotivGym` page component. That logic is an in-memory registry of groups,
each group with its challenges, plus the selected group and the screen being
shown. This project models that registry as immutable datatypes with pure
transition functions, and proves what each transition promises.

Modules:

- `Domain` (`domain.dfy`): `Group`, `Challenge`, `Participant`, the `State`
  (registry, selected group as an index into it, current view), the two
  forms, and the seeded initial registry.
- `Text` (`text.dfy`): upper-casing, and equality up to case.
- `InviteCode` (`invite_code.dfy`): shaping the text of a random number into
  an invite code, including JavaScript's `substring` clamping.
- `Registry` (`registry.dfy`): the handlers. These are create group, join by
  code, create challenge, check in, open a group and go back, plus the public
  listing and the frame and counting lemmas about them.
- `Session` (`session.dfy`): the application as a state machine over button
  clicks. It gates each handler the way the screen does, by which view is
  shown and which buttons are disabled. It defines the invariant every
  reachable state satisfies and proves that whole sessions preserve it.

The source mutates shared objects in place (`group.members += 1`,
`selectedGroup.challenges.push`). The selected group is therefore an index
into the registry, so both mutations are updates of a registry element.

Two behaviours of the code are worth stating plainly:

- Invite codes can be shorter than six characters. A code is characters 2
  to 8 of `Math.random().toString(36)`, upper-cased, and that text can be
  shorter than 8 characters. `InviteCode.ShortCodes` shows 0.5 giving `"I"`
  and 0 giving `""`.
- Joining upper-cases the typed code, compares it exactly with the stored
  codes, and does nothing on a miss. Stored codes never hold a lower-case
  letter (`Session.SessionWf`, via `Session.RunPreservesWf`), so the
  comparison ignores the case of ASCII letters
  (`Session.JoinIsCaseInsensitive`).

## Model

| member | source | states |
|---|---|---|
| `Text.Upper` | src/app/page.tsx:113 | the upper-cased input has the same length, no lower-case letter, and equals the input up to case (which fixes it uniquely) |
| `Text.EqualIgnoringCaseIffUpper` | src/app/page.tsx:113 | two strings are equal up to case exactly when their upper-cased forms are equal |
| `Text.UpperMatchIsCaseInsensitive` | src/app/page.tsx:113 | comparing an upper-cased input with a stored code that has no lower-case letter is a case-insensitive comparison |
| `InviteCode.Substring` | src/app/page.tsx:91 | `substring` yields the characters between the smaller and the larger of its two ends, each clamped to the length |
| `InviteCode.SubstringSwap` | src/app/page.tsx:91 | `substring` gives the same text whichever order its two ends are given in |
| `InviteCode.Generate` | src/app/page.tsx:90-92 | the code has at most 6 characters and no lower-case letter; its length is what `substring(2, 8)` leaves; each character is the rendering's character two places on, up to case |
| `InviteCode.GenerateAlphabet` | src/app/page.tsx:91 | for a base-36 rendering of a number in [0, 1), the code uses only digits and upper-case letters, and has exactly 6 characters when the rendering is long enough |
| `InviteCode.ShortCodes` | src/app/page.tsx:91 | short renderings give short codes: "0.i" gives "I", "0" gives the empty code |
| `Domain.Initial` | src/app/page.tsx:45-68 | the application starts on the home screen with nothing selected and two public groups without challenges: "MANHA123" with 12 members and "RUN5K456" with 8 |
| `Registry.FindFirst` | src/app/page.tsx:113 | `find` returns nothing exactly when no group has the code, and otherwise the first group in registry order that has it |
| `Registry.CreateGroup` | src/app/page.tsx:94-107 | exactly one group is appended and earlier groups are unchanged; it has 1 member, no challenges, the form's fields, the generated code, and is private exactly when the privacy field is "true"; it becomes selected and the group view is shown |
| `Registry.JoinGroup` | src/app/page.tsx:112-117 | with no group matching the upper-cased code nothing changes; otherwise only the first matching group changes, gaining exactly one member, and it becomes selected and shown |
| `Registry.CreateChallenge` | src/app/page.tsx:123-134 | with no selection nothing changes; otherwise the selected group's challenges gain exactly one challenge at the end, with the form's fields and no participants, and no other group or field changes |
| `Registry.CheckIn` | src/app/page.tsx:139-142 | checking in leaves every group, challenge and participant, the selection and the view unchanged |
| `Registry.OpenGroup` | src/app/page.tsx:321-325 | "Ver Grupo" on a public group selects that group and shows it, leaving the registry unchanged |
| `Registry.Back` | src/app/page.tsx:347 | "Voltar" shows the home view, keeping the registry and the selection |
| `Registry.PublicGroups` | src/app/page.tsx:302 | the listing holds exactly the registry's non-private groups, so never a private one |
| `Registry.PublicGroupsAppend` | src/app/page.tsx:302 | the listing of a concatenation is the concatenation of the listings, so registry order is kept |
| `Registry.PublicGroupsSingle` | src/app/page.tsx:302 | a single group is listed exactly when it is public |
| `Registry.CreateGroupListing` | src/app/page.tsx:302 | creating a group extends the listing by the new group exactly when it is public; a group created private never appears |
| `Registry.CreateThenJoin` | src/app/page.tsx:101-115 | a new group's own code, typed in any case, joins it and makes it 2 members, unless an older group already has that code, in which case the older group is joined |
| `Registry.CreateGroupAddsOneMember` | src/app/page.tsx:102-105 | creating a group raises the registry's total membership by exactly 1 and leaves the total number of challenges unchanged |
| `Registry.JoinGroupAddsOneMember` | src/app/page.tsx:113-115 | a join raises total membership by 1 when the code matches and by 0 otherwise, and adds no challenge |
| `Registry.CreateChallengeAddsOneChallenge` | src/app/page.tsx:124-134 | creating a challenge adds exactly one challenge to the registry when a group is selected and none otherwise, and leaves memberships unchanged |
| `Session.Step` | src/app/page.tsx:144-536 | a click keeps the selection valid, removes no group, keeps every group's identity, settings and invite code, never lowers a member count, and only appends challenges |
| `Session.Run` | src/app/page.tsx:45-68 | a whole session keeps the selection valid and grows the registry out of the starting one in the sense of `Step` |
| `Session.InitialWf` | src/app/page.tsx:45-68 | the seeded starting state satisfies the invariant |
| `Session.StepPreservesWf` | src/app/page.tsx:94-142 | every click, with the buttons' disabled conditions applied, preserves the invariant: valid selection, group view only with a selection, named and categorised groups with at least one member and upper-case codes, named and typed challenges with no participants |
| `Session.RunPreservesWf` | src/app/page.tsx:94-142 | a whole session preserves the invariant |
| `Session.SessionWf` | src/app/page.tsx:45-68 | every session from the start ends in a state satisfying the invariant, with the seeded groups still at the front |
| `Session.CreateGroupEnabled` | src/app/page.tsx:223 | "Criar Grupo" is enabled exactly when the name and the category are non-empty |
| `Session.CreateGroupGate` | src/app/page.tsx:223 | on the home screen, clicking "Criar Grupo" adds one group when the name and category are non-empty and none otherwise |
| `Session.JoinEnabled` | src/app/page.tsx:281 | "Entrar no Grupo" is enabled exactly when the typed code is non-empty and `find` on its upper-cased form returns a group |
| `Session.CreateChallengeEnabled` | src/app/page.tsx:475 | "Criar Desafio" is enabled exactly when the name, the duration text and the check-in type are non-empty |
| `Session.CreateChallengeGate` | src/app/page.tsx:475 | on the group screen, clicking "Criar Desafio" adds one challenge to the registry when those three fields are non-empty and none otherwise |
| `Session.JoinEnabledIffEffect` | src/app/page.tsx:281 | the join button is enabled exactly when a non-empty code is typed and joining with it would change the registry |
| `Session.JoinIsCaseInsensitive` | src/app/page.tsx:113 | in any reachable state, a group is matched by a typed code exactly when the code equals its invite code up to case |
| `Session.EmptyCodeNeverJoined` | src/app/page.tsx:281 | a group whose generated invite code is empty can never be joined through the button |
| `Session.SeededJoin` | src/app/page.tsx:46-121 | with the seeded registry, "manha123" joins "Treino Matinal", raising it from 12 to 13 members, and "NOPE000" changes nothing |

## Left out

- Rendering, layout, icons and the UI component library: these are presentation only.
- Dialog open and close flags, form field bindings and form resets: these are UI plumbing. Form values are inputs to the operations.
- `Math.random()` and `Date.now()` are nondeterministic. The random number's text rendering and the ids are parameters. Ids are not assumed to be unique, because the source does not make them so.
- `parseInt` and its NaN result: a challenge's duration is passed in already parsed, as an integer. The typed text is kept only for the button's non-empty check.
- React re-render behaviour: the in-place mutations do not call `setGroups`. Only their effect on the data is modelled.
- Members are unbounded integers. JavaScript numbers lose precision past 2^53, which is not modelled.
- The ranking, participants and history tabs: these are unimplemented placeholders in the source.
- The check-in text field and the per-challenge check-in dialog: check-in stores nothing, so only the fact that it changes no data is modelled.
- Text.Upper: models `toUpperCase` on the ASCII letters only and leaves other characters unchanged, so it does not cover Unicode case mappings such as "ß" to "SS". Generated codes come from base-36 text, which has only ASCII letters.
- Registry.JoinGroup: a typed code matches a stored code only through ASCII upper-casing. In JavaScript `toUpperCase` also maps "ı" to "I", "ſ" to "S" and "ß" to "SS", so typing "ıs0000" joins a group whose code is "IS0000"; the model leaves the state unchanged for such input.
- Session.JoinIsCaseInsensitive: "equal up to case" means equal up to the case of ASCII letters; typed non-ASCII letters whose JavaScript upper-case form is ASCII are not covered.
