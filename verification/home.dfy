/**
 The decision rules of the home screen (`Home.kt`): which group the player is
 in, the four player slots, the checks before a group game is started, the
 play button, and the invite dialog. The login is the screen's non-empty
 `LOGIN_EXTRA`; the screen closes itself before any of this when it is
 missing or empty.
 */
module HomeScreen {
  import opened Basics
  import opened Domain

  /** `onCreate`: the login extra is used only when present and non-empty. */
  function AcceptLogin(extra: Option<string>): (login: Option<string>)
    ensures login.Some? <==> extra.Some? && |extra.value| > 0
    ensures login.Some? ==> login == extra
  {
    match extra
    case Some(s) => if |s| == 0 then None else extra
    case None => None
  }

  // ---------------------------------------------------------------------------
  // The player's group
  // ---------------------------------------------------------------------------

  /** The first group whose members include `login`, whatever its status. */
  function FindPlayerGroup(groups: seq<GroupInfo>, login: string): (r: Option<nat>)
    ensures r.Some? ==> r.value < |groups| && login in groups[r.value].players
    ensures r.Some? ==> forall j | 0 <= j < r.value :: login !in groups[j].players
    ensures r.None? ==> forall j | 0 <= j < |groups| :: login !in groups[j].players
  {
    if |groups| == 0 then None
    else if login in groups[0].players then Some(0)
    else match FindPlayerGroup(groups[1..], login)
      case None => None
      case Some(i) => Some(i + 1)
  }

  /** `getCurrentPlayerGroup`: a failed fetch counts as "in no group". */
  function CurrentPlayerGroup(login: string, reply: Call<seq<GroupInfo>>): (r: Option<GroupInfo>)
    ensures reply.Threw? ==> r.None?
    ensures r.Some? ==> reply.Returned? && r.value in reply.value && login in r.value.players
    ensures reply.Returned? && (exists g | g in reply.value :: login in g.players) ==> r.Some?
    ensures reply.Returned? ==>
      r == (match FindPlayerGroup(reply.value, login) case Some(i) => Some(reply.value[i]) case None => None)
  {
    match reply
    case Threw(_) => None
    case Returned(groups) =>
      match FindPlayerGroup(groups, login)
      case None => None
      case Some(i) => Some(groups[i])
  }

  // ---------------------------------------------------------------------------
  // The four player slots
  // ---------------------------------------------------------------------------

  /** What a slot shows: the placeholder, the own figure (black) or another player (green). */
  datatype Slot = Placeholder | Own | Other

  const SlotCount: nat := 4

  /**
   `updateGroupPlayersDisplay`: reset every slot to the placeholder, then
   fill slot `i` for each of the first four members.
   */
  method UpdateGroupPlayersDisplay(players: seq<string>, login: string) returns (slots: seq<Slot>)
    ensures |slots| == SlotCount
    ensures forall i | 0 <= i < SlotCount :: slots[i] != Placeholder <==> i < |players|
    ensures forall i | 0 <= i < SlotCount && i < |players| :: slots[i] == Own <==> players[i] == login
  {
    slots := [Placeholder, Placeholder, Placeholder, Placeholder];
    var shown := if |players| <= SlotCount then players else players[..SlotCount];
    var index := 0;
    while index < |shown|
      invariant 0 <= index <= |shown| <= SlotCount
      invariant |slots| == SlotCount
      invariant forall i | 0 <= i < index :: slots[i] != Placeholder && (slots[i] == Own <==> shown[i] == login)
      invariant forall i | index <= i < SlotCount :: slots[i] == Placeholder
    {
      if index < |slots| {
        slots := slots[index := if shown[index] == login then Own else Other];
      }
      index := index + 1;
    }
  }

  /** `loadPlayerGroupInfo`: redraw the slots for the player's group, or leave them as they are. */
  method LoadPlayerGroupInfo(current: seq<Slot>, login: string, reply: Call<seq<GroupInfo>>) returns (slots: seq<Slot>)
    ensures CurrentPlayerGroup(login, reply).None? ==> slots == current
    ensures CurrentPlayerGroup(login, reply).Some? ==>
      var players := CurrentPlayerGroup(login, reply).value.players;
      && |slots| == SlotCount
      && (forall i | 0 <= i < SlotCount :: slots[i] != Placeholder <==> i < |players|)
      && (forall i | 0 <= i < SlotCount && i < |players| :: slots[i] == Own <==> players[i] == login)
      && (exists i | 0 <= i < SlotCount :: slots[i] == Own) == (login in players[..if |players| <= SlotCount then |players| else SlotCount])
  {
    match CurrentPlayerGroup(login, reply)
    case None =>
      slots := current;
    case Some(group) =>
      slots := UpdateGroupPlayersDisplay(group.players, login);
      var players := group.players;
      var n := if |players| <= SlotCount then |players| else SlotCount;
      if login in players[..n] {
        var k :| 0 <= k < n && players[..n][k] == login;
        assert slots[k] == Own;
      }
  }

  // ---------------------------------------------------------------------------
  // Starting a group game
  // ---------------------------------------------------------------------------

  const BlankGroupId: string := "Ошибка: ID группы не найден"
  const GroupNotFound: string := "Группа не найдена"
  const NotAMember: string := "Вы не состоите в этой группе"
  const StartRefused: string := "Не удалось запустить игру для группы"
  const StartFailedPrefix: string := "Ошибка запуска игры: "
  const DefaultGroupId: string := "default"

  /** Where the screen ends up: a toast, or the game screen for a `GROUP_ID`. */
  datatype Outcome = Toast(text: string) | EnterGame(groupId: string)

  /** The repository calls made, and the outcome. */
  datatype StartAttempt = StartAttempt(groupsFetched: bool, startRequested: bool, outcome: Outcome)

  /** Whether the group checks of `startGroupGame` pass on the fetched list. */
  predicate MayStart(groups: seq<GroupInfo>, login: string, groupId: string) {
    FindGroup(groups, groupId).Some? && login in groups[FindGroup(groups, groupId).value].players
  }

  /**
   `startGroupGame`: a blank id is refused before any call; then the id must
   name a group, and the first group with that id must contain the player;
   only then is the server asked, and only its `true` enters the game.
   */
  function StartGroupGame(login: string, groupId: string, groupsReply: Call<seq<GroupInfo>>, startReply: Call<bool>): (r: StartAttempt)
    ensures IsBlank(groupId) ==> r == StartAttempt(false, false, Toast(BlankGroupId))
    ensures !IsBlank(groupId) ==> r.groupsFetched
    ensures !IsBlank(groupId) && groupsReply.Returned? && FindGroup(groupsReply.value, groupId).None? ==>
      r == StartAttempt(true, false, Toast(GroupNotFound))
    ensures !IsBlank(groupId) && groupsReply.Returned? && FindGroup(groupsReply.value, groupId).Some?
            && !MayStart(groupsReply.value, login, groupId) ==>
      r == StartAttempt(true, false, Toast(NotAMember))
    ensures r.startRequested <==> !IsBlank(groupId) && groupsReply.Returned? && MayStart(groupsReply.value, login, groupId)
    ensures r.outcome.EnterGame? <==> r.startRequested && startReply == Returned(true)
    ensures r.outcome.EnterGame? ==> r.outcome.groupId == groupId
  {
    if IsBlank(groupId) then StartAttempt(false, false, Toast(BlankGroupId))
    else match groupsReply
      case Threw(reason) => StartAttempt(true, false, Toast(StartFailedPrefix + Describe(reason)))
      case Returned(groups) =>
        match FindGroup(groups, groupId)
        case None => StartAttempt(true, false, Toast(GroupNotFound))
        case Some(i) =>
          if login !in groups[i].players then StartAttempt(true, false, Toast(NotAMember))
          else match startReply
            case Returned(true) => StartAttempt(true, true, EnterGame(groupId))
            case Returned(false) => StartAttempt(true, true, Toast(StartRefused))
            case Threw(reason) => StartAttempt(true, true, Toast(StartFailedPrefix + Describe(reason)))
  }

  /**
   The play button: a player in a group starts that group's game; a player in
   no group, or whose group list could not be fetched, enters the `"default"`
   game straight away.
   */
  function PlayPressed(login: string, lookupReply: Call<seq<GroupInfo>>, groupsReply: Call<seq<GroupInfo>>, startReply: Call<bool>): (r: StartAttempt)
    ensures CurrentPlayerGroup(login, lookupReply).None? ==> r == StartAttempt(false, false, EnterGame(DefaultGroupId))
    ensures CurrentPlayerGroup(login, lookupReply).Some? ==>
      r == StartGroupGame(login, CurrentPlayerGroup(login, lookupReply).value.groupId, groupsReply, startReply)
    ensures r.outcome.EnterGame? && r.outcome.groupId != DefaultGroupId ==> r.startRequested
  {
    match CurrentPlayerGroup(login, lookupReply)
    case None => StartAttempt(false, false, EnterGame(DefaultGroupId))
    case Some(group) => StartGroupGame(login, group.groupId, groupsReply, startReply)
  }

  predicate UniqueGroupIds(groups: seq<GroupInfo>) {
    forall i, j | 0 <= i < j < |groups| :: groups[i].groupId != groups[j].groupId
  }

  /**
   When both fetches return the same list, ids are unique and the player's
   group has a non-blank id, the membership found by the lookup survives the
   checks of `startGroupGame` and the server is asked to start that group.
   */
  lemma PlayReachesServer(login: string, groups: seq<GroupInfo>, startReply: Call<bool>)
    requires UniqueGroupIds(groups)
    requires FindPlayerGroup(groups, login).Some?
    requires !IsBlank(groups[FindPlayerGroup(groups, login).value].groupId)
    ensures var r := PlayPressed(login, Returned(groups), Returned(groups), startReply);
      r.startRequested && (startReply == Returned(true) ==> r.outcome == EnterGame(groups[FindPlayerGroup(groups, login).value].groupId))
  {
    var p := FindPlayerGroup(groups, login).value;
    assert FindGroup(groups, groups[p].groupId) == Some(p);
  }

  /**
   Without unique ids the lookup and the start checks can disagree: a player
   who is a member of the second of two groups sharing an id is refused.
   */
  lemma DuplicateIdRefusesMember(login: string, id: string, other: seq<string>, startReply: Call<bool>)
    requires login !in other && !IsBlank(id)
    ensures var groups := [GroupInfo(id, other, 4, "waiting"), GroupInfo(id, [login], 4, "waiting")];
      PlayPressed(login, Returned(groups), Returned(groups), startReply) == StartAttempt(true, false, Toast(NotAMember))
  {
    var groups := [GroupInfo(id, other, 4, "waiting"), GroupInfo(id, [login], 4, "waiting")];
    assert FindPlayerGroup(groups, login) == Some(1) by {
      assert groups[1..][0] == groups[1];
    }
    assert FindGroup(groups, id) == Some(0);
  }

  // ---------------------------------------------------------------------------
  // The invite dialog
  // ---------------------------------------------------------------------------

  const TempGroupPrefix: string := "temp_group_"
  const GameInviteMessage: string := "Приглашение в игру"

  /**
   The dialog's send button: the text is used as typed (not trimmed) when it
   is non-empty; the group id is made from the clock reading `now`.
   */
  function DialogInvite(login: string, text: string, now: nat): (r: Option<GroupInviteRequest>)
    ensures r.Some? <==> |text| > 0
    ensures r.Some? ==>
      && r.value.sender == login && r.value.receivers == [text]
      && StartsWith(r.value.groupId, TempGroupPrefix)
      && r.value.message == GameInviteMessage
  {
    if |text| == 0 then None
    else
      StartsWithAppend(TempGroupPrefix, ShowNat(now));
      Some(GroupInviteRequest(login, [text], TempGroupPrefix + ShowNat(now), GameInviteMessage))
  }

  /** Invites made at different clock readings name different temporary groups. */
  lemma DialogGroupIdsDistinct(login: string, text: string, a: nat, b: nat)
    requires |text| > 0 && a != b
    ensures DialogInvite(login, text, a).value.groupId != DialogInvite(login, text, b).value.groupId
  {
    if DialogInvite(login, text, a).value.groupId == DialogInvite(login, text, b).value.groupId {
      StartsWithAppend(TempGroupPrefix, ShowNat(a));
      StartsWithAppend(TempGroupPrefix, ShowNat(b));
      ShowNatInjective(a, b);
    }
  }

  /** Unlike the invites screen, the dialog sends whitespace-only input. */
  lemma DialogSendsBlankText(login: string, now: nat)
    ensures DialogInvite(login, " ", now).Some?
  {
  }

  /** The toast after the dialog's invite was sent. */
  function AfterDialogSend(target: string, reply: Call<GroupInviteResponse>): (toast: string)
    ensures reply.Returned? && reply.value.status == "SUCCESS" ==> toast == "Приглашение отправлено игроку: " + target
    ensures reply.Returned? && reply.value.status != "SUCCESS" ==> toast == "Ошибка отправки приглашения: " + reply.value.message
    ensures reply.Threw? ==> toast == "Ошибка при отправке приглашения: " + Describe(reply.reason)
  {
    match reply
    case Returned(response) =>
      if response.status == "SUCCESS" then "Приглашение отправлено игроку: " + target
      else "Ошибка отправки приглашения: " + response.message
    case Threw(reason) => "Ошибка при отправке приглашения: " + Describe(reason)
  }
}
