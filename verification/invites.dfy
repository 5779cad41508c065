/**
 The invites screen of `InvitesActivity.kt`: the checks and the request of
 `sendInvite`, the requests of `acceptInvite` and `declineInvite`, and when
 the list is reloaded.
 */
module InvitesScreen {
  import opened Basics
  import opened Domain

  const EnterPlayerLogin: string := "Введите логин игрока"
  const CannotInviteSelf: string := "Нельзя пригласить самого себя"
  const InviteMessage: string := "Приглашение в группу"
  const ResponseSuccess: string := "SUCCESS"

  /** The outcome of the checks made before any request: a toast, or the request to send. */
  datatype InviteCheck = Rejected(toast: string) | Send(request: GroupInviteRequest)

  /**
   `sendInvite` up to the repository call: the trimmed target must be
   non-empty and must differ from the own login. `groupId` is the intent's
   `GROUP_ID`, `""` when absent.
   */
  function CheckInvite(playerLogin: string, groupId: string, targetText: string): (r: InviteCheck)
    ensures IsBlank(targetText) <==> r == Rejected(EnterPlayerLogin)
    ensures !IsBlank(targetText) && Trim(targetText) == playerLogin <==> r == Rejected(CannotInviteSelf)
    ensures !IsBlank(targetText) && Trim(targetText) != playerLogin ==> r.Send?
    ensures r.Send? ==>
      && r.request.sender == playerLogin
      && r.request.receivers == [Trim(targetText)]
      && r.request.groupId == groupId
      && r.request.message == InviteMessage
      && |Trim(targetText)| > 0 && Trim(targetText) != playerLogin
  {
    var target := Trim(targetText);
    if |target| == 0 then Rejected(EnterPlayerLogin)
    else if target == playerLogin then Rejected(CannotInviteSelf)
    else Send(GroupInviteRequest(playerLogin, [target], groupId, InviteMessage))
  }

  /** Padding the own login with whitespace does not get past the self-invite check. */
  lemma PaddedSelfInviteRejected(playerLogin: string, groupId: string, left: string, right: string)
    requires IsBlank(left) && IsBlank(right)
    requires |playerLogin| > 0 && !IsWhitespace(playerLogin[0]) && !IsWhitespace(playerLogin[|playerLogin| - 1])
    ensures CheckInvite(playerLogin, groupId, left + playerLogin + right) == Rejected(CannotInviteSelf)
  {
    TrimPadded(left, playerLogin, right);
  }

  /** With an empty own login the self check can never fire: an empty target is caught first. */
  lemma EmptyOwnLoginNeverSelf(groupId: string, targetText: string)
    ensures CheckInvite("", groupId, targetText) != Rejected(CannotInviteSelf)
  {
  }

  /** What the screen does with the answer to `sendGroupInvite`. */
  datatype SendOutcome = SendOutcome(clearInput: bool, toast: string)

  function AfterSend(reply: Call<GroupInviteResponse>): (r: SendOutcome)
    ensures r.clearInput <==> reply.Returned? && reply.value.status == ResponseSuccess
    ensures reply.Returned? && reply.value.status != ResponseSuccess ==>
      r.toast == "Ошибка отправки: " + reply.value.message
    ensures reply.Threw? ==> r.toast == "Ошибка сети: " + Describe(reply.reason)
  {
    match reply
    case Returned(response) =>
      if response.status == ResponseSuccess then SendOutcome(true, "Приглашение отправлено!")
      else SendOutcome(false, "Ошибка отправки: " + response.message)
    case Threw(reason) => SendOutcome(false, "Ошибка сети: " + Describe(reason))
  }

  /** The request `acceptInvite` (`accept = true`) or `declineInvite` (`accept = false`) sends for a listed invite. */
  function AnswerRequest(playerLogin: string, invite: GroupInviteRequest, accept: bool): (r: GroupInviteAcceptRequest)
    ensures r.playerLogin == playerLogin && r.groupId == invite.groupId && r.accept == accept
  {
    GroupInviteAcceptRequest(playerLogin, invite.groupId, accept)
  }

  /** Accepting and declining the same invite send the same request except for the flag. */
  lemma AcceptAndDeclineDifferOnlyInFlag(playerLogin: string, invite: GroupInviteRequest)
    ensures AnswerRequest(playerLogin, invite, true).(accept := false) == AnswerRequest(playerLogin, invite, false)
    ensures AnswerRequest(playerLogin, invite, true) != AnswerRequest(playerLogin, invite, false)
  {
  }

  /** After accepting or declining: reload the list only when the repository said `true`. */
  function ReloadAfterAnswer(reply: Call<bool>): (reload: bool)
    ensures reload <==> reply == Returned(true)
  {
    match reply
    case Returned(ok) => ok
    case Threw(_) => false
  }

  /** `loadInvites`: the adapter shows the fetched list; on failure it keeps what it showed and a toast appears. */
  datatype Shown = Shown(invites: seq<GroupInviteRequest>, toast: Option<string>)

  function LoadInvites(shown: seq<GroupInviteRequest>, reply: Call<seq<GroupInviteRequest>>): (r: Shown)
    ensures reply.Returned? ==> r == Shown(reply.value, None)
    ensures reply.Threw? ==> r.invites == shown && r.toast.Some?
  {
    match reply
    case Returned(invites) => Shown(invites, None)
    case Threw(reason) => Shown(shown, Some("Ошибка загрузки приглашений: " + Describe(reason)))
  }
}
