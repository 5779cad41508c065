/**
 The app's data classes, as immutable values. Coordinates are `real`: the
 app's `Float` arithmetic is modelled exactly, without IEEE rounding.
 */
module Domain {
  import opened Basics

  /** A player's name and position on the map. */
  datatype PlayerData = PlayerData(login: string, x: real, y: real)

  /** The wire wrapper `{"player": [...]}` around a list of players. */
  datatype OtherPlayer = OtherPlayer(player: seq<PlayerData>)

  /** The server's answer to a login or register request. */
  datatype AuthResponse = AuthResponse(status: string, message: string)

  /** Progress of the login screen. */
  datatype State = Empty | Loading | Success | Error(message: string)

  /** A lobby: its id, its members' logins, its size limit and its status. */
  datatype GroupInfo = GroupInfo(groupId: string, players: seq<string>, maxPlayers: int, status: string)

  datatype GroupInviteRequest = GroupInviteRequest(sender: string, receivers: seq<string>, groupId: string, message: string)

  datatype GroupInviteAcceptRequest = GroupInviteAcceptRequest(playerLogin: string, groupId: string, accept: bool)

  datatype GroupInviteResponse = GroupInviteResponse(status: string, message: string)

  /**
   What a suspending repository call did: it returned a value, or it threw an
   exception whose `message` may be null.
   */
  datatype Call<+T> = Returned(value: T) | Threw(reason: Option<string>)

  /** How `"${e.message}"` renders a nullable exception message. */
  function Describe(reason: Option<string>): (r: string)
    ensures reason.Some? ==> r == reason.value
    ensures reason.None? ==> r == "null"
  {
    reason.GetOr("null")
  }

  /** The first group with the given id (Kotlin's `find { it.groupId == id }`). */
  function FindGroup(groups: seq<GroupInfo>, groupId: string): (r: Option<nat>)
    ensures r.Some? ==> r.value < |groups| && groups[r.value].groupId == groupId
    ensures r.Some? ==> forall j | 0 <= j < r.value :: groups[j].groupId != groupId
    ensures r.None? ==> forall j | 0 <= j < |groups| :: groups[j].groupId != groupId
  {
    if |groups| == 0 then None
    else if groups[0].groupId == groupId then Some(0)
    else match FindGroup(groups[1..], groupId)
      case None => None
      case Some(i) => Some(i + 1)
  }
}
