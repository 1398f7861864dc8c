/** The entities of the group registry: groups own challenges, challenges own
    participants, and the session state holds the registry, the selected
    group and the current screen. */
module Domain {

  datatype Option<T> = None | Some(value: T)

  /** Declared by the application but never created by any of its operations. */
  datatype Participant = Participant(
    id: string,
    name: string,
    checkIns: int,
    lastCheckIn: Option<string>)

  /** A challenge; duration is the already-parsed number of days. */
  datatype Challenge = Challenge(
    id: string,
    name: string,
    description: string,
    duration: int,
    rules: string,
    checkInType: string,
    participants: seq<Participant>)

  /** A group; members is a bare counter, not a list of identities. */
  datatype Group = Group(
    id: string,
    name: string,
    description: string,
    category: string,
    isPrivate: bool,
    inviteCode: string,
    members: int,
    challenges: seq<Challenge>)

  datatype View = Home | GroupView

  /** The registry in insertion order; the selected group is an index into it. */
  datatype State = State(groups: seq<Group>, selected: Option<nat>, view: View)

  /** The values of the group form; privacy is the text "true" or "false". */
  datatype GroupForm = GroupForm(
    name: string,
    description: string,
    category: string,
    isPrivate: string)

  /** The values of the challenge form; duration is the text typed in. */
  datatype ChallengeForm = ChallengeForm(
    name: string,
    description: string,
    duration: string,
    rules: string,
    checkInType: string)

  /** The registry the application starts with: two public groups, nothing
      selected, the home screen. */
  function Initial(): (s: State)
    ensures |s.groups| == 2 && s.selected == None && s.view == Home
    ensures s.groups[0].inviteCode == "MANHA123" && s.groups[0].members == 12
    ensures s.groups[1].inviteCode == "RUN5K456" && s.groups[1].members == 8
    ensures forall i | 0 <= i < |s.groups| :: !s.groups[i].isPrivate && s.groups[i].challenges == []
  {
    State(
      [ Group("1", "Treino Matinal", "Grupo para quem treina de manhã", "Musculação",
              false, "MANHA123", 12, []),
        Group("2", "Corrida 5K", "Preparação para corrida de 5km", "Corrida",
              false, "RUN5K456", 8, []) ],
      None,
      Home)
  }
}
