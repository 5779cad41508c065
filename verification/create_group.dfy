/**
 The create-group form of `CreateGroupActivity.kt`: validation of the two
 text fields, the `GroupInfo` sent to the repository, and what the screen
 does with the answer.
 */
module CreateGroupForm {
  import opened Basics
  import opened Domain

  const EnterGroupName: string := "Введите название группы"
  const PlayerCountOutOfRange: string := "Количество игроков должно быть от 2 до 10"
  const DefaultMaxPlayers: int := 5
  const MinPlayers: int := 2
  const MaxPlayers: int := 10
  const Waiting: string := "waiting"
  const ResponseSuccess: string := "SUCCESS"

  /** The outcome of the checks made before any request: a toast, or the group to create. */
  datatype Validation = Rejected(toast: string) | Accepted(groupName: string, group: GroupInfo)

  /** `maxPlayersStr.toIntOrNull() ?: 5` on the trimmed field. */
  function ParseMaxPlayers(text: string): (n: int)
    ensures IntMin <= n <= IntMax
    ensures ToIntOrNull(Trim(text)).None? ==> n == DefaultMaxPlayers
    ensures ToIntOrNull(Trim(text)).Some? ==> n == ToIntOrNull(Trim(text)).value
  {
    ToIntOrNull(Trim(text)).GetOr(DefaultMaxPlayers)
  }

  /** A number typed with any whitespace around it is read back as that number. */
  lemma ParseMaxPlayersShowInt(left: string, n: int, right: string)
    requires IsBlank(left) && IsBlank(right)
    requires IntMin <= n <= IntMax
    ensures ParseMaxPlayers(left + ShowInt(n) + right) == n
  {
    var s := ShowInt(n);
    if n >= 0 {
      assert IsDigit(s[0]) && IsDigit(s[|s| - 1]);
    } else {
      assert s[0] == '-';
      assert s[|s| - 1] == ShowNat(-n)[|ShowNat(-n)| - 1];
    }
    TrimPadded(left, s, right);
    ToIntOrNullShowInt(n);
  }

  /** A field with nothing usable in it falls back to five players. */
  lemma BlankMaxPlayersDefaults(text: string)
    requires IsBlank(text)
    ensures ParseMaxPlayers(text) == DefaultMaxPlayers
  {
  }

  /** The checks of `createGroup`, in order: the trimmed name first, then the player count. */
  function ValidateForm(playerLogin: string, nameText: string, maxText: string): (r: Validation)
    ensures IsBlank(nameText) <==> r == Rejected(EnterGroupName)
    ensures !IsBlank(nameText) && !(MinPlayers <= ParseMaxPlayers(maxText) <= MaxPlayers) <==>
      r == Rejected(PlayerCountOutOfRange)
    ensures !IsBlank(nameText) && MinPlayers <= ParseMaxPlayers(maxText) <= MaxPlayers ==> r.Accepted?
    ensures r.Accepted? ==>
      && r.groupName == Trim(nameText) && |r.groupName| > 0
      && r.group.groupId == playerLogin && r.group.players == [playerLogin]
      && r.group.maxPlayers == ParseMaxPlayers(maxText)
      && MinPlayers <= r.group.maxPlayers <= MaxPlayers
      && r.group.status == Waiting
  {
    var groupName := Trim(nameText);
    if |groupName| == 0 then Rejected(EnterGroupName)
    else
      var maxPlayers := ParseMaxPlayers(maxText);
      if maxPlayers < MinPlayers || maxPlayers > MaxPlayers then Rejected(PlayerCountOutOfRange)
      else Accepted(groupName, GroupInfo(playerLogin, [playerLogin], maxPlayers, Waiting))
  }

  /** The group name is checked but never sent: two names that pass build the same group. */
  lemma GroupIgnoresName(playerLogin: string, name1: string, name2: string, maxText: string)
    requires !IsBlank(name1) && !IsBlank(name2)
    ensures ValidateForm(playerLogin, name1, maxText).Accepted? == ValidateForm(playerLogin, name2, maxText).Accepted?
    ensures ValidateForm(playerLogin, name1, maxText).Accepted? ==>
      ValidateForm(playerLogin, name1, maxText).group == ValidateForm(playerLogin, name2, maxText).group
  {
  }

  /** The form as first shown (max players "5") accepts any non-blank name. */
  lemma DefaultFormAccepted(playerLogin: string, nameText: string)
    requires !IsBlank(nameText)
    ensures ValidateForm(playerLogin, nameText, "5") == Accepted(Trim(nameText), GroupInfo(playerLogin, [playerLogin], 5, Waiting))
  {
    ParseMaxPlayersShowInt([], 5, []);
    assert ShowInt(5) == "5";
    assert [] + "5" + [] == "5";
  }

  const GroupCreated: string := "Группа создана успешно!"
  const CreateFailedPrefix: string := "Ошибка создания группы: "
  const NetworkErrorPrefix: string := "Ошибка сети: "

  /**
   What the screen does once the repository has answered: a toast, and on
   success the return to the groups list after it.
   */
  datatype Outcome = BackToGroups(text: string) | Toast(text: string)

  function AfterCreate(reply: Call<GroupInviteResponse>): (r: Outcome)
    ensures r.BackToGroups? <==> reply.Returned? && reply.value.status == ResponseSuccess
    ensures r.BackToGroups? ==> r.text == GroupCreated
    ensures reply.Returned? && reply.value.status != ResponseSuccess ==>
      r == Toast(CreateFailedPrefix + reply.value.message)
    ensures reply.Threw? ==> r == Toast(NetworkErrorPrefix + Describe(reply.reason))
  {
    match reply
    case Returned(response) =>
      if response.status == ResponseSuccess then BackToGroups(GroupCreated)
      else Toast(CreateFailedPrefix + response.message)
    case Threw(reason) => Toast(NetworkErrorPrefix + Describe(reason))
  }

  /** The whole button handler: the request made, if any, and what the screen shows or does. */
  datatype Submission = Submission(request: Option<GroupInfo>, outcome: Outcome)

  function CreateGroup(playerLogin: string, nameText: string, maxText: string, reply: Call<GroupInviteResponse>): (r: Submission)
    ensures r.request.None? <==> ValidateForm(playerLogin, nameText, maxText).Rejected?
    ensures r.request.Some? ==> r.request.value == ValidateForm(playerLogin, nameText, maxText).group
    ensures r.request.None? ==> r.outcome == Toast(ValidateForm(playerLogin, nameText, maxText).toast)
    ensures r.outcome.BackToGroups? ==> r.request.Some? && reply.Returned? && reply.value.status == ResponseSuccess
  {
    match ValidateForm(playerLogin, nameText, maxText)
    case Rejected(toast) => Submission(None, Toast(toast))
    case Accepted(_, group) => Submission(Some(group), AfterCreate(reply))
  }
}
