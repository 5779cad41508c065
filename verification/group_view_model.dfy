/**
 `GroupViewModel.kt` as state transitions: each operation takes the view
 model's fields and the repository's behaviour (`Call`) and returns the fields
 after the operation's coroutine has finished. Where an operation launches
 `loadGroups` as a separate coroutine, the step reports that a reload was
 requested instead of running it.
 */
module GroupViewModel {
  import opened Basics
  import opened Domain

  /** The screen state of the groups view model. */
  datatype GroupState = Empty | Loading | Success(message: string) | Error(message: string)

  datatype GroupVm = GroupVm(
    groups: seq<GroupInfo>,
    invites: seq<GroupInviteRequest>,
    currentGroup: Option<GroupInfo>,
    state: GroupState)

  /** The result of an operation that may launch `loadGroups`. */
  datatype GroupStep = GroupStep(vm: GroupVm, reloadGroups: bool)

  const GroupsLoaded: string := "Группы загружены"
  const InviteAccepted: string := "Приглашение принято"
  const InviteDeclined: string := "Приглашение отклонено"
  const GameStarted: string := "Игра запущена"
  const GameFinished: string := "Игра завершена"
  const Playing: string := "playing"
  const Finished: string := "finished"
  const LoadGroupsFailed: string := "Ошибка загрузки групп: "
  const AcceptFailed: string := "Ошибка принятия приглашения: "
  const DeclineFailed: string := "Ошибка отклонения приглашения: "
  const StartFailed: string := "Ошибка запуска игры: "
  const FinishFailed: string := "Ошибка завершения игры: "

  function InitialGroupVm(): GroupVm {
    GroupVm([], [], None, GroupState.Empty)
  }

  // ---------------------------------------------------------------------------
  // List helpers
  // ---------------------------------------------------------------------------

  /** `removeAll { it.groupId == groupId }` on a copy of the invite list. */
  function RemoveInvitesFor(invites: seq<GroupInviteRequest>, groupId: string): (r: seq<GroupInviteRequest>)
    ensures |r| <= |invites|
    ensures forall i | 0 <= i < |r| :: r[i].groupId != groupId
    ensures forall x | x in r :: x in invites
    ensures forall x | x in invites && x.groupId != groupId :: x in r
  {
    if |invites| == 0 then []
    else
      var rest := RemoveInvitesFor(invites[1..], groupId);
      if invites[0].groupId == groupId then rest else [invites[0]] + rest
  }

  /** Removal works piecewise, so the surviving invites keep their relative order. */
  lemma {:induction false} RemoveInvitesForAppend(a: seq<GroupInviteRequest>, b: seq<GroupInviteRequest>, groupId: string)
    ensures RemoveInvitesFor(a + b, groupId) == RemoveInvitesFor(a, groupId) + RemoveInvitesFor(b, groupId)
  {
    if |a| == 0 {
      assert a + b == b;
    } else {
      assert (a + b)[1..] == a[1..] + b;
      RemoveInvitesForAppend(a[1..], b, groupId);
    }
  }

  /** Removing the invites of a group a second time changes nothing. */
  lemma {:induction false} RemoveInvitesForIdempotent(invites: seq<GroupInviteRequest>, groupId: string)
    ensures RemoveInvitesFor(RemoveInvitesFor(invites, groupId), groupId) == RemoveInvitesFor(invites, groupId)
  {
    if |invites| > 0 {
      RemoveInvitesForIdempotent(invites[1..], groupId);
      var rest := RemoveInvitesFor(invites[1..], groupId);
      if invites[0].groupId != groupId {
        assert ([invites[0]] + rest)[1..] == rest;
      }
    }
  }

  /** Set the status of the first group with the given id; leave the list alone when there is none. */
  function SetStatusOfFirst(groups: seq<GroupInfo>, groupId: string, status: string): (r: seq<GroupInfo>)
    ensures |r| == |groups|
    ensures FindGroup(groups, groupId).None? ==> r == groups
    ensures FindGroup(groups, groupId).Some? ==>
      var i := FindGroup(groups, groupId).value;
      && r[i] == groups[i].(status := status)
      && forall j | 0 <= j < |groups| && j != i :: r[j] == groups[j]
  {
    match FindGroup(groups, groupId)
    case None => groups
    case Some(i) => groups[i := groups[i].(status := status)]
  }

  // ---------------------------------------------------------------------------
  // Operations
  // ---------------------------------------------------------------------------

  /** `loadGroups`: replace the list wholesale on success; keep it and report an error on failure. */
  function LoadGroups(vm: GroupVm, reply: Call<seq<GroupInfo>>): (r: GroupVm)
    ensures r.invites == vm.invites && r.currentGroup == vm.currentGroup
    ensures reply.Returned? ==> r.groups == reply.value && r.state == GroupState.Success(GroupsLoaded)
    ensures reply.Threw? ==> r == vm.(state := GroupState.Error(LoadGroupsFailed + Describe(reply.reason)))
  {
    match reply
    case Returned(groups) => vm.(groups := groups, state := GroupState.Success(GroupsLoaded))
    case Threw(reason) => vm.(state := GroupState.Error(LoadGroupsFailed + Describe(reason)))
  }

  /** `loadInvites`: replace the invite list on success; a failure is only logged. */
  function LoadInvites(vm: GroupVm, reply: Call<seq<GroupInviteRequest>>): (r: GroupVm)
    ensures reply.Returned? ==> r == vm.(invites := reply.value)
    ensures reply.Threw? ==> r == vm
  {
    match reply
    case Returned(invites) => vm.(invites := invites)
    case Threw(_) => vm
  }

  /** `acceptInvite` (answered `accept = true`) with the repository answering `reply`. */
  function AcceptInvite(vm: GroupVm, groupId: string, reply: Call<bool>): (r: GroupStep)
    ensures reply == Returned(true) ==>
      && r.vm == vm.(invites := RemoveInvitesFor(vm.invites, groupId), state := GroupState.Success(InviteAccepted))
      && r.reloadGroups
    ensures reply == Returned(false) ==> r == GroupStep(vm, false)
    ensures reply.Threw? ==>
      r == GroupStep(vm.(state := GroupState.Error(AcceptFailed + Describe(reply.reason))), false)
  {
    match reply
    case Returned(true) =>
      GroupStep(vm.(invites := RemoveInvitesFor(vm.invites, groupId), state := GroupState.Success(InviteAccepted)), true)
    case Returned(false) => GroupStep(vm, false)
    case Threw(reason) =>
      GroupStep(vm.(state := GroupState.Error(AcceptFailed + Describe(reason))), false)
  }

  /** `declineInvite` (answered `accept = false`): like accepting, but without a groups reload. */
  function DeclineInvite(vm: GroupVm, groupId: string, reply: Call<bool>): (r: GroupVm)
    ensures reply == Returned(true) ==>
      r == vm.(invites := RemoveInvitesFor(vm.invites, groupId), state := GroupState.Success(InviteDeclined))
    ensures reply == Returned(false) ==> r == vm
    ensures reply.Threw? ==> r == vm.(state := GroupState.Error(DeclineFailed + Describe(reply.reason)))
  {
    match reply
    case Returned(true) => vm.(invites := RemoveInvitesFor(vm.invites, groupId), state := GroupState.Success(InviteDeclined))
    case Returned(false) => vm
    case Threw(reason) => vm.(state := GroupState.Error(DeclineFailed + Describe(reason)))
  }

  /**
   `startGroupGame`: on success mark the first group with that id as playing
   and make it the current group; the success message is set even when no
   group matched.
   */
  function StartGroupGame(vm: GroupVm, groupId: string, reply: Call<bool>): (r: GroupVm)
    ensures reply == Returned(false) ==> r == vm
    ensures reply == Returned(true) ==>
      && r.state == GroupState.Success(GameStarted) && r.invites == vm.invites
      && |r.groups| == |vm.groups|
      && match FindGroup(vm.groups, groupId)
         case None => r.groups == vm.groups && r.currentGroup == vm.currentGroup
         case Some(i) =>
           && r.groups[i] == vm.groups[i].(status := Playing)
           && (forall j | 0 <= j < |vm.groups| && j != i :: r.groups[j] == vm.groups[j])
           && r.currentGroup == Some(r.groups[i])
    ensures reply.Threw? ==> r == vm.(state := GroupState.Error(StartFailed + Describe(reply.reason)))
  {
    match reply
    case Returned(true) =>
      var groups := SetStatusOfFirst(vm.groups, groupId, Playing);
      var current := match FindGroup(vm.groups, groupId)
        case None => vm.currentGroup
        case Some(i) => Some(groups[i]);
      vm.(groups := groups, currentGroup := current, state := GroupState.Success(GameStarted))
    case Returned(false) => vm
    case Threw(reason) => vm.(state := GroupState.Error(StartFailed + Describe(reason)))
  }

  /** `finishGroupGame`: on success mark the first group with that id as finished and clear the current group if one matched. */
  function FinishGroupGame(vm: GroupVm, groupId: string, reply: Call<bool>): (r: GroupVm)
    ensures reply == Returned(false) ==> r == vm
    ensures reply == Returned(true) ==>
      && r.state == GroupState.Success(GameFinished) && r.invites == vm.invites
      && |r.groups| == |vm.groups|
      && match FindGroup(vm.groups, groupId)
         case None => r.groups == vm.groups && r.currentGroup == vm.currentGroup
         case Some(i) =>
           && r.groups[i] == vm.groups[i].(status := Finished)
           && (forall j | 0 <= j < |vm.groups| && j != i :: r.groups[j] == vm.groups[j])
           && r.currentGroup.None?
    ensures reply.Threw? ==> r == vm.(state := GroupState.Error(FinishFailed + Describe(reply.reason)))
  {
    match reply
    case Returned(true) =>
      var groups := SetStatusOfFirst(vm.groups, groupId, Finished);
      var current := if FindGroup(vm.groups, groupId).Some? then None else vm.currentGroup;
      vm.(groups := groups, currentGroup := current, state := GroupState.Success(GameFinished))
    case Returned(false) => vm
    case Threw(reason) => vm.(state := GroupState.Error(FinishFailed + Describe(reason)))
  }

  /** `joinGroup`: make the first group with that id current; with none, nothing changes. */
  function JoinGroup(vm: GroupVm, groupId: string): (r: GroupVm)
    ensures r.groups == vm.groups && r.invites == vm.invites && r.state == vm.state
    ensures r.currentGroup.Some? && r.currentGroup != vm.currentGroup ==> r.currentGroup.value in vm.groups
    ensures FindGroup(vm.groups, groupId).Some? ==>
      r.currentGroup == Some(vm.groups[FindGroup(vm.groups, groupId).value])
    ensures FindGroup(vm.groups, groupId).None? ==> r == vm
  {
    match FindGroup(vm.groups, groupId)
    case Some(i) => vm.(currentGroup := Some(vm.groups[i]))
    case None => vm
  }

  /** `leaveGroup`: no current group. */
  function LeaveGroup(vm: GroupVm): (r: GroupVm)
    ensures r.currentGroup.None?
    ensures r.(currentGroup := vm.currentGroup) == vm
  {
    vm.(currentGroup := None)
  }

  /** `resetState`: state back to `Empty`, lists and current group untouched. */
  function ResetState(vm: GroupVm): (r: GroupVm)
    ensures r.state == GroupState.Empty
    ensures r.(state := vm.state) == vm
  {
    vm.(state := GroupState.Empty)
  }

  // ---------------------------------------------------------------------------
  // Properties across operations
  // ---------------------------------------------------------------------------

  /**
   A successful start followed by a successful finish of the same group
   leaves that group finished, no current group, and every other group as it
   was.
   */
  lemma StartThenFinish(vm: GroupVm, groupId: string)
    requires FindGroup(vm.groups, groupId).Some?
    ensures var i := FindGroup(vm.groups, groupId).value;
      var r := FinishGroupGame(StartGroupGame(vm, groupId, Returned(true)), groupId, Returned(true));
      && r.groups == vm.groups[i := vm.groups[i].(status := Finished)]
      && r.currentGroup.None?
      && r.state == GroupState.Success(GameFinished)
  {
    var i := FindGroup(vm.groups, groupId).value;
    var started := StartGroupGame(vm, groupId, Returned(true));
    assert started.groups[..i] == vm.groups[..i];
    FindGroupUnchangedByStatus(vm.groups, groupId, Playing);
  }

  /** Changing a status does not move the first group with an id. */
  lemma FindGroupUnchangedByStatus(groups: seq<GroupInfo>, groupId: string, status: string)
    ensures FindGroup(SetStatusOfFirst(groups, groupId, status), groupId) == FindGroup(groups, groupId)
  {
    var r := SetStatusOfFirst(groups, groupId, status);
    match FindGroup(groups, groupId)
    case None =>
    case Some(i) =>
      var k := FindGroup(r, groupId);
      assert r[i].groupId == groupId;
      if k.Some? {
        assert k.value >= i;
      }
  }

  /** Accepting an invite twice in a row leaves the same invite list as accepting it once. */
  lemma AcceptInviteTwice(vm: GroupVm, groupId: string)
    ensures var once := AcceptInvite(vm, groupId, Returned(true)).vm;
      AcceptInvite(once, groupId, Returned(true)).vm == once
  {
    RemoveInvitesForIdempotent(vm.invites, groupId);
  }

  /**
   The groups reload that a successful acceptance launches: once it has
   finished, the invites of the group are gone and the list and state are
   whatever the reload produced; the acceptance message has been overwritten.
   */
  lemma AcceptThenReload(vm: GroupVm, groupId: string, reply: Call<seq<GroupInfo>>)
    ensures var accepted := AcceptInvite(vm, groupId, Returned(true));
      var r := LoadGroups(accepted.vm, reply);
      && accepted.reloadGroups
      && r.invites == RemoveInvitesFor(vm.invites, groupId)
      && r.currentGroup == vm.currentGroup
      && (reply.Returned? ==> r.groups == reply.value && r.state == GroupState.Success(GroupsLoaded))
      && (reply.Threw? ==> r.groups == vm.groups && r.state == GroupState.Error(LoadGroupsFailed + Describe(reply.reason)))
  {
  }

  /** Joining a group and then leaving it is the same as leaving straight away. */
  lemma LeaveUndoesJoin(vm: GroupVm, groupId: string)
    ensures LeaveGroup(JoinGroup(vm, groupId)) == LeaveGroup(vm)
  {
  }

  /**
   Resetting the state does not interact with the group membership: it
   commutes with joining and with leaving a group.
   */
  lemma ResetCommutesWithMembership(vm: GroupVm, groupId: string)
    ensures ResetState(JoinGroup(vm, groupId)) == JoinGroup(ResetState(vm), groupId)
    ensures ResetState(LeaveGroup(vm)) == LeaveGroup(ResetState(vm))
  {
  }
}
