/** The group registry and its challenge ledgers: the transitions the
    application's handlers perform on the in-memory state. Each handler is
    modelled as it is written, without the checks the buttons make (those
    live in the Session module). */
module Registry {
  import opened Domain
  import opened Text
  import InviteCode

  /** The selection, when there is one, names an element of the registry. */
  predicate SelectionValid(s: State) {
    s.selected.Some? ==> s.selected.value < |s.groups|
  }

  /** Some group of the registry has exactly this invite code. */
  predicate HasCode(groups: seq<Group>, key: string) {
    exists i | 0 <= i < |groups| :: groups[i].inviteCode == key
  }

  /** i is the first group, in registry order, whose invite code is key. */
  predicate IsFirstMatch(groups: seq<Group>, key: string, i: nat) {
    && i < |groups|
    && groups[i].inviteCode == key
    && forall j | 0 <= j < i :: groups[j].inviteCode != key
  }

  /** Array.prototype.find over the registry, returning the position found. */
  function FindFirst(groups: seq<Group>, key: string): (r: Option<nat>)
    ensures r.None? <==> !HasCode(groups, key)
    ensures r.Some? ==> IsFirstMatch(groups, key, r.value)
    decreases |groups|
  {
    if |groups| == 0 then None
    else if groups[0].inviteCode == key then Some(0)
    else match FindFirst(groups[1..], key)
      case None =>
        assert forall i | 1 <= i < |groups| :: groups[i] == groups[1..][i - 1];
        None
      case Some(i) =>
        assert forall j | 1 <= j < i + 1 :: groups[j] == groups[1..][j - 1];
        Some(i + 1)
  }

  function NewGroup(form: GroupForm, id: string, rendering: string): Group {
    Group(id, form.name, form.description, form.category, form.isPrivate == "true",
          InviteCode.Generate(rendering), 1, [])
  }

  /** Creating a group: one new group at the end of the registry, with its
      creator as the only member and no challenges; it becomes the selected
      group and the group screen is shown. */
  function CreateGroup(s: State, form: GroupForm, id: string, rendering: string): (r: State)
    ensures |r.groups| == |s.groups| + 1
    ensures r.groups[..|s.groups|] == s.groups
    ensures var g := r.groups[|s.groups|];
      && g.id == id && g.name == form.name && g.description == form.description
      && g.category == form.category
      && (g.isPrivate <==> form.isPrivate == "true")
      && g.inviteCode == InviteCode.Generate(rendering)
      && g.members == 1
      && g.challenges == []
    ensures r.selected == Some(|s.groups|) && r.view == GroupView
  {
    var g := NewGroup(form, id, rendering);
    assert (s.groups + [g])[..|s.groups|] == s.groups;
    State(s.groups + [g], Some(|s.groups|), GroupView)
  }

  /** Joining by invite code: the typed code is upper-cased and compared
      exactly with the stored codes. The first matching group gains one
      member, becomes selected and is shown; every other group is unchanged.
      With no matching group nothing changes at all. */
  function JoinGroup(s: State, code: string): (r: State)
    ensures !HasCode(s.groups, Upper(code)) ==> r == s
    ensures HasCode(s.groups, Upper(code)) ==>
      r.selected.Some? && IsFirstMatch(s.groups, Upper(code), r.selected.value)
    ensures forall i: nat | IsFirstMatch(s.groups, Upper(code), i) ::
      && r.selected == Some(i)
      && r.view == GroupView
      && |r.groups| == |s.groups|
      && r.groups[i] == s.groups[i].(members := s.groups[i].members + 1)
      && forall k | 0 <= k < |s.groups| && k != i :: r.groups[k] == s.groups[k]
  {
    match FindFirst(s.groups, Upper(code))
    case None => s
    case Some(i) =>
      var g := s.groups[i];
      State(s.groups[i := g.(members := g.members + 1)], Some(i), GroupView)
  }

  function NewChallenge(form: ChallengeForm, id: string, duration: int): Challenge {
    Challenge(id, form.name, form.description, duration, form.rules, form.checkInType, [])
  }

  /** Creating a challenge: nothing happens when no group is selected;
      otherwise the selected group's challenge list gains one challenge at its
      end, with no participants, and nothing else changes. */
  function CreateChallenge(s: State, form: ChallengeForm, id: string, duration: int): (r: State)
    requires SelectionValid(s)
    ensures s.selected.None? ==> r == s
    ensures s.selected.Some? ==>
      var i := s.selected.value;
      var before := s.groups[i].challenges;
      && r.selected == s.selected && r.view == s.view
      && |r.groups| == |s.groups|
      && r.groups[i] == s.groups[i].(challenges := r.groups[i].challenges)
      && |r.groups[i].challenges| == |before| + 1
      && r.groups[i].challenges[..|before|] == before
      && (var c := r.groups[i].challenges[|before|];
          && c.id == id && c.name == form.name && c.description == form.description
          && c.duration == duration && c.rules == form.rules
          && c.checkInType == form.checkInType
          && c.participants == [])
      && forall k | 0 <= k < |s.groups| && k != i :: r.groups[k] == s.groups[k]
  {
    match s.selected
    case None => s
    case Some(i) =>
      var g := s.groups[i];
      var c := NewChallenge(form, id, duration);
      assert (g.challenges + [c])[..|g.challenges|] == g.challenges;
      s.(groups := s.groups[i := g.(challenges := g.challenges + [c])])
  }

  /** Checking in to a challenge: the handler only closes its dialog, so the
      registry, every challenge and every participant stay as they were. */
  function CheckIn(s: State, challenge: nat, text: string): (r: State)
    ensures r.groups == s.groups
    ensures r.selected == s.selected && r.view == s.view
  {
    s
  }

  /** "Ver Grupo" on the card of a public group: that group is selected and shown. */
  function OpenGroup(s: State, i: nat): (r: State)
    requires i < |s.groups| && !s.groups[i].isPrivate
    ensures r.groups == s.groups
    ensures r.selected == Some(i) && r.view == GroupView
  {
    State(s.groups, Some(i), GroupView)
  }

  /** "Voltar": back to the home screen; the selection is kept. */
  function Back(s: State): (r: State)
    ensures r.groups == s.groups && r.selected == s.selected
    ensures r.view == Home
  {
    s.(view := Home)
  }

  /** The public listing of the home screen: the groups that are not private,
      in registry order. */
  function PublicGroups(groups: seq<Group>): (r: seq<Group>)
    ensures |r| <= |groups|
    ensures forall g :: g in r <==> g in groups && !g.isPrivate
  {
    if |groups| == 0 then []
    else
      assert groups == [groups[0]] + groups[1..];
      (if groups[0].isPrivate then [] else [groups[0]]) + PublicGroups(groups[1..])
  }

  /** The listing of a concatenation is the concatenation of the listings, so
      the listing keeps registry order. */
  lemma {:induction false} PublicGroupsAppend(a: seq<Group>, b: seq<Group>)
    ensures PublicGroups(a + b) == PublicGroups(a) + PublicGroups(b)
    decreases |a|
  {
    if |a| == 0 {
      assert a + b == b;
    } else {
      assert (a + b)[0] == a[0];
      assert (a + b)[1..] == a[1..] + b;
      PublicGroupsAppend(a[1..], b);
    }
  }

  /** A one-group registry is listed exactly when its group is public. */
  lemma PublicGroupsSingle(g: Group)
    ensures PublicGroups([g]) == if g.isPrivate then [] else [g]
  {
  }

  /** Creating a group extends the listing by the new group exactly when it
      is public; a group created private never appears in it. */
  lemma CreateGroupListing(s: State, form: GroupForm, id: string, rendering: string)
    ensures var r := CreateGroup(s, form, id, rendering);
      PublicGroups(r.groups) ==
        PublicGroups(s.groups) + (if form.isPrivate == "true" then [] else [r.groups[|s.groups|]])
    ensures form.isPrivate == "true" ==>
      var r := CreateGroup(s, form, id, rendering);
      r.groups[|s.groups|] !in PublicGroups(r.groups)
  {
    var g := NewGroup(form, id, rendering);
    PublicGroupsAppend(s.groups, [g]);
    PublicGroupsSingle(g);
  }

  /** A new group can be joined with its own invite code typed in any case,
      unless an older group already has that code: the join then goes to the
      older group, since codes are not checked for uniqueness. */
  lemma CreateThenJoin(s: State, form: GroupForm, id: string, rendering: string, typed: string)
    requires EqualIgnoringCase(typed, InviteCode.Generate(rendering))
    ensures var r := CreateGroup(s, form, id, rendering);
      var j := JoinGroup(r, typed);
      && j.selected.Some?
      && (j.selected == Some(|s.groups|) <==> !HasCode(s.groups, InviteCode.Generate(rendering)))
    ensures !HasCode(s.groups, InviteCode.Generate(rendering)) ==>
      JoinGroup(CreateGroup(s, form, id, rendering), typed).groups[|s.groups|].members == 2
  {
  }

  /** The sum of f over the registry. */
  function SumOver(groups: seq<Group>, f: Group -> int): int {
    if |groups| == 0 then 0 else f(groups[0]) + SumOver(groups[1..], f)
  }

  function MemberCount(g: Group): int {
    g.members
  }

  function ChallengeCount(g: Group): int {
    |g.challenges|
  }

  lemma {:induction false} SumOverAppend(a: seq<Group>, g: Group, f: Group -> int)
    ensures SumOver(a + [g], f) == SumOver(a, f) + f(g)
    decreases |a|
  {
    if |a| == 0 {
      assert a + [g] == [g];
      assert [g][1..] == [];
    } else {
      assert (a + [g])[1..] == a[1..] + [g];
      SumOverAppend(a[1..], g, f);
    }
  }

  lemma {:induction false} SumOverUpdate(groups: seq<Group>, i: nat, g: Group, f: Group -> int)
    requires i < |groups|
    ensures SumOver(groups[i := g], f) == SumOver(groups, f) - f(groups[i]) + f(g)
    decreases |groups|
  {
    if i == 0 {
      assert groups[i := g][1..] == groups[1..];
    } else {
      assert groups[i := g][1..] == groups[1..][i - 1 := g];
      SumOverUpdate(groups[1..], i - 1, g, f);
    }
  }

  /** Creating a group adds exactly one membership to the registry. */
  lemma CreateGroupAddsOneMember(s: State, form: GroupForm, id: string, rendering: string)
    ensures SumOver(CreateGroup(s, form, id, rendering).groups, MemberCount)
         == SumOver(s.groups, MemberCount) + 1
    ensures SumOver(CreateGroup(s, form, id, rendering).groups, ChallengeCount)
         == SumOver(s.groups, ChallengeCount)
  {
    var g := NewGroup(form, id, rendering);
    SumOverAppend(s.groups, g, MemberCount);
    SumOverAppend(s.groups, g, ChallengeCount);
  }

  /** A join adds exactly one membership when the code matches a group and
      none otherwise; it never adds a challenge. */
  lemma JoinGroupAddsOneMember(s: State, code: string)
    ensures SumOver(JoinGroup(s, code).groups, MemberCount)
         == SumOver(s.groups, MemberCount) + (if HasCode(s.groups, Upper(code)) then 1 else 0)
    ensures SumOver(JoinGroup(s, code).groups, ChallengeCount) == SumOver(s.groups, ChallengeCount)
  {
    var found := FindFirst(s.groups, Upper(code));
    if found.Some? {
      var i := found.value;
      var g := s.groups[i];
      assert JoinGroup(s, code).groups == s.groups[i := g.(members := g.members + 1)];
      SumOverUpdate(s.groups, i, g.(members := g.members + 1), MemberCount);
      SumOverUpdate(s.groups, i, g.(members := g.members + 1), ChallengeCount);
    }
  }

  /** Creating a challenge adds exactly one challenge to the registry when a
      group is selected and none otherwise; memberships are untouched. */
  lemma CreateChallengeAddsOneChallenge(s: State, form: ChallengeForm, id: string, duration: int)
    requires SelectionValid(s)
    ensures SumOver(CreateChallenge(s, form, id, duration).groups, ChallengeCount)
         == SumOver(s.groups, ChallengeCount) + (if s.selected.Some? then 1 else 0)
    ensures SumOver(CreateChallenge(s, form, id, duration).groups, MemberCount)
         == SumOver(s.groups, MemberCount)
  {
    match s.selected
    case None =>
    case Some(i) =>
      var g := s.groups[i];
      var g' := g.(challenges := g.challenges + [NewChallenge(form, id, duration)]);
      SumOverUpdate(s.groups, i, g', ChallengeCount);
      SumOverUpdate(s.groups, i, g', MemberCount);
  }
}
