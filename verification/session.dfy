/** The application as a state machine over user actions. A button acts only
    when it is on the screen being shown and is not disabled; the disabled
    conditions are the forms' non-empty checks and, for joining, a matching
    invite code. */
module Session {
  import opened Domain
  import opened Text
  import opened Registry

  datatype Event =
    | CreateGroupClicked(groupForm: GroupForm, groupId: string, rendering: string)
    | JoinClicked(code: string)
    | ViewGroupClicked(index: nat)
    | BackClicked
    | CreateChallengeClicked(challengeForm: ChallengeForm, challengeId: string, duration: int)
    | CheckInClicked(challenge: nat, text: string)

  /** "Criar Grupo" is enabled once a name and a category are given. */
  predicate CreateGroupEnabled(form: GroupForm) {
    form.name != "" && form.category != ""
  }

  /** "Entrar no Grupo" is enabled once a code is typed that some group has. */
  predicate JoinEnabled(groups: seq<Group>, code: string)
    ensures JoinEnabled(groups, code) <==> code != "" && FindFirst(groups, Upper(code)).Some?
  {
    code != "" && HasCode(groups, Upper(code))
  }

  /** "Criar Desafio" is enabled once a name, a duration and a check-in type are given. */
  predicate CreateChallengeEnabled(form: ChallengeForm) {
    form.name != "" && form.duration != "" && form.checkInType != ""
  }

  predicate OnHome(s: State) {
    s.view == Home
  }

  /** The group screen is drawn only when a group is selected; a group view
      with no selection draws nothing. */
  predicate OnGroupScreen(s: State) {
    s.view == GroupView && s.selected.Some?
  }

  /** A group persists from g to h: its identity and settings are kept, its
      member count does not fall and its challenges are only appended to. */
  predicate Persists(g: Group, h: Group) {
    && h.id == g.id && h.name == g.name && h.description == g.description
    && h.category == g.category && h.isPrivate == g.isPrivate
    && h.inviteCode == g.inviteCode
    && h.members >= g.members
    && g.challenges <= h.challenges
  }

  /** Registry b grows out of registry a: no group is removed or reordered,
      and each of them persists. */
  predicate Extends(a: seq<Group>, b: seq<Group>) {
    |a| <= |b| && forall i | 0 <= i < |a| :: Persists(a[i], b[i])
  }

  /** One user action. A button that is hidden or disabled changes nothing. */
  function Step(s: State, e: Event): (r: State)
    requires SelectionValid(s)
    ensures SelectionValid(r)
    ensures Extends(s.groups, r.groups)
  {
    match e
    case CreateGroupClicked(form, id, rendering) =>
      if OnHome(s) && CreateGroupEnabled(form) then CreateGroup(s, form, id, rendering) else s
    case JoinClicked(code) =>
      if OnHome(s) && JoinEnabled(s.groups, code) then JoinGroup(s, code) else s
    case ViewGroupClicked(i) =>
      if OnHome(s) && i < |s.groups| && !s.groups[i].isPrivate then OpenGroup(s, i) else s
    case BackClicked =>
      if OnGroupScreen(s) then Back(s) else s
    case CreateChallengeClicked(form, id, duration) =>
      if OnGroupScreen(s) && CreateChallengeEnabled(form) then CreateChallenge(s, form, id, duration) else s
    case CheckInClicked(k, text) =>
      if OnGroupScreen(s) && k < |s.groups[s.selected.value].challenges| then CheckIn(s, k, text) else s
  }

  /** A session: the actions applied one after the other. */
  function Run(s: State, events: seq<Event>): (r: State)
    requires SelectionValid(s)
    ensures SelectionValid(r)
    ensures Extends(s.groups, r.groups)
    decreases |events|
  {
    if |events| == 0 then s else Run(Step(s, events[0]), events[1..])
  }

  predicate ChallengeWf(c: Challenge) {
    c.name != "" && c.checkInType != "" && c.participants == []
  }

  predicate GroupWf(g: Group) {
    && g.name != "" && g.category != ""
    && g.members >= 1
    && NoLower(g.inviteCode)
    && forall j | 0 <= j < |g.challenges| :: ChallengeWf(g.challenges[j])
  }

  /** What every reachable state satisfies: the selection names a group, the
      group view always has a selection, every group has a name, a category,
      at least one member and an invite code without lower-case letters, and
      every challenge has a name, a check-in type and no participants. */
  predicate Wf(s: State) {
    && SelectionValid(s)
    && (s.view == GroupView ==> s.selected.Some?)
    && forall i | 0 <= i < |s.groups| :: GroupWf(s.groups[i])
  }

  lemma InitialWf()
    ensures Wf(Initial())
  {
  }

  lemma StepPreservesWf(s: State, e: Event)
    requires Wf(s)
    ensures Wf(Step(s, e))
  {
  }

  lemma {:induction false} RunPreservesWf(s: State, events: seq<Event>)
    requires Wf(s)
    ensures Wf(Run(s, events))
    decreases |events|
  {
    if |events| > 0 {
      StepPreservesWf(s, events[0]);
      RunPreservesWf(Step(s, events[0]), events[1..]);
    }
  }

  /** Every session from the initial registry ends in a well-formed state, and
      the two seeded groups are still in it at the front. */
  lemma SessionWf(events: seq<Event>)
    ensures Wf(Run(Initial(), events))
    ensures Extends(Initial().groups, Run(Initial(), events).groups)
  {
    InitialWf();
    RunPreservesWf(Initial(), events);
  }

  /** The join button is enabled exactly when a non-empty code is typed and
      joining with it would change the registry. */
  lemma JoinEnabledIffEffect(s: State, code: string)
    ensures JoinEnabled(s.groups, code) <==> code != "" && JoinGroup(s, code).groups != s.groups
  {
  }

  /** In a well-formed state, joining is case-insensitive: group i is the one
      matched by a code exactly when the code equals its invite code up to
      case. */
  lemma JoinIsCaseInsensitive(s: State, code: string, i: nat)
    requires Wf(s) && i < |s.groups|
    ensures s.groups[i].inviteCode == Upper(code) <==> EqualIgnoringCase(code, s.groups[i].inviteCode)
  {
  }

  /** A group whose invite code came out empty is never changed by the join
      button, since an empty code keeps the button disabled. */
  lemma EmptyCodeNeverJoined(s: State, code: string, i: nat)
    requires SelectionValid(s) && i < |s.groups| && s.groups[i].inviteCode == ""
    ensures Step(s, JoinClicked(code)).groups[i] == s.groups[i]
  {
  }

  /** On the home screen, "Criar Grupo" adds a group exactly when a name and a
      category are given. */
  lemma CreateGroupGate(s: State, form: GroupForm, id: string, rendering: string)
    requires SelectionValid(s) && OnHome(s)
    ensures |Step(s, CreateGroupClicked(form, id, rendering)).groups|
         == |s.groups| + (if CreateGroupEnabled(form) then 1 else 0)
  {
  }

  /** On the group screen, "Criar Desafio" adds a challenge to the registry
      exactly when a name, a duration and a check-in type are given. */
  lemma CreateChallengeGate(s: State, form: ChallengeForm, id: string, duration: int)
    requires SelectionValid(s) && OnGroupScreen(s)
    ensures SumOver(Step(s, CreateChallengeClicked(form, id, duration)).groups, ChallengeCount)
         == SumOver(s.groups, ChallengeCount) + (if CreateChallengeEnabled(form) then 1 else 0)
  {
    CreateChallengeAddsOneChallenge(s, form, id, duration);
  }

  /** With the seeded registry, "manha123" joins "Treino Matinal" and raises
      it from 12 to 13 members; "NOPE000" changes nothing. */
  lemma SeededJoin()
    ensures Step(Initial(), JoinClicked("manha123")).groups[0].members == 13
    ensures Step(Initial(), JoinClicked("manha123")).selected == Some(0)
    ensures Step(Initial(), JoinClicked("NOPE000")) == Initial()
  {
  }
}
