/**
 `PlayerViewModel.kt`: the local player's data, the list of other players and
 the connection status, driven by the events its four collectors receive.
 Coordinates are `real`; the `Float` rounding of the app is not modelled.
 */
module PlayerViewModel {
  import opened Basics
  import opened Domain
  import opened GameRepository

  datatype PlayerVm = PlayerVm(playerData: PlayerData, otherPlayers: seq<PlayerData>, connectionStatus: ConnectionStatus)

  /**
   What a collector receives: a value on one of the repository's flows, or a
   position echo from the network manager's `positionUpdates`.
   */
  datatype PlayerEvent = Repository(emission: Emission) | PositionEcho(player: PlayerData)

  /** The fields right after construction. */
  function InitialPlayerVm(): (vm: PlayerVm)
    ensures vm.playerData.login == "" && vm.playerData.x == 500.0 && vm.playerData.y == 500.0
    ensures vm.otherPlayers == [] && vm.connectionStatus == Disconnected
  {
    PlayerVm(PlayerData("", 500.0, 500.0), [], Disconnected)
  }

  /** `setPlayerLogin`: a new login at the same position. */
  function SetPlayerLogin(vm: PlayerVm, login: string): (r: PlayerVm)
    ensures r.playerData.login == login
    ensures r.playerData.x == vm.playerData.x && r.playerData.y == vm.playerData.y
    ensures r.otherPlayers == vm.otherPlayers && r.connectionStatus == vm.connectionStatus
  {
    vm.(playerData := vm.playerData.(login := login))
  }

  /** `updatePosition`: move by `(dx, dy)`; the position sent to the network manager is the new `playerData`. */
  function UpdatePosition(vm: PlayerVm, dx: real, dy: real): (r: PlayerVm)
    ensures r.playerData.login == vm.playerData.login
    ensures r.playerData.x - vm.playerData.x == dx && r.playerData.y - vm.playerData.y == dy
    ensures r.otherPlayers == vm.otherPlayers && r.connectionStatus == vm.connectionStatus
  {
    vm.(playerData := vm.playerData.(x := vm.playerData.x + dx, y := vm.playerData.y + dy))
  }

  /** Two moves add up: moving by `a` then by `b` is one move by `a + b`. */
  lemma UpdatePositionCompose(vm: PlayerVm, dx1: real, dy1: real, dx2: real, dy2: real)
    ensures UpdatePosition(UpdatePosition(vm, dx1, dy1), dx2, dy2) == UpdatePosition(vm, dx1 + dx2, dy1 + dy2)
  {
  }

  /** Moving back by the opposite offset restores the state. */
  lemma UpdatePositionUndo(vm: PlayerVm, dx: real, dy: real)
    ensures UpdatePosition(UpdatePosition(vm, dx, dy), -dx, -dy) == vm
  {
  }

  /** Logging in on a fresh view model keeps the starting position (500, 500). */
  lemma LoginOnFreshViewModel(login: string)
    ensures SetPlayerLogin(InitialPlayerVm(), login).playerData == PlayerData(login, 500.0, 500.0)
  {
  }

  /** One collector step. */
  function Apply(vm: PlayerVm, e: PlayerEvent): (r: PlayerVm)
    ensures r.playerData.login == vm.playerData.login
    ensures e.Repository? ==> r.playerData == vm.playerData
    ensures e.Repository? && e.emission.OtherPlayersUpdate? ==>
      r == vm.(otherPlayers := e.emission.players)
    ensures e.Repository? && e.emission.StatusUpdate? ==>
      r == vm.(connectionStatus := e.emission.status)
    ensures e.Repository? && (e.emission.PlayerUpdate? || e.emission.GameStarted?) ==> r == vm
    ensures e.PositionEcho? ==> r.otherPlayers == vm.otherPlayers && r.connectionStatus == vm.connectionStatus
    ensures e.PositionEcho? && e.player.login == vm.playerData.login ==> r == vm.(playerData := e.player)
    ensures e.PositionEcho? && e.player.login != vm.playerData.login ==> r == vm
  {
    match e
    case Repository(PlayerUpdate(_)) => vm
    case Repository(OtherPlayersUpdate(players)) => vm.(otherPlayers := players)
    case Repository(StatusUpdate(status)) => vm.(connectionStatus := status)
    case Repository(GameStarted(_)) => vm
    case PositionEcho(p) =>
      if p.login == vm.playerData.login then vm.(playerData := p) else vm
  }

  /** The state after the collectors have received `events`, in order. */
  function Replay(vm: PlayerVm, events: seq<PlayerEvent>): PlayerVm
  {
    if |events| == 0 then vm
    else Apply(Replay(vm, events[..|events| - 1]), events[|events| - 1])
  }

  predicate IsStatus(e: PlayerEvent) {
    e.Repository? && e.emission.StatusUpdate?
  }

  predicate IsOtherPlayers(e: PlayerEvent) {
    e.Repository? && e.emission.OtherPlayersUpdate?
  }

  /** `events[k]` is a status event and no later event is one. */
  predicate LastStatusAt(events: seq<PlayerEvent>, k: int) {
    0 <= k < |events| && IsStatus(events[k]) && forall j | k < j < |events| :: !IsStatus(events[j])
  }

  /** `events[k]` is an other-players event and no later event is one. */
  predicate LastOtherPlayersAt(events: seq<PlayerEvent>, k: int) {
    0 <= k < |events| && IsOtherPlayers(events[k]) && forall j | k < j < |events| :: !IsOtherPlayers(events[j])
  }

  /**
   The connection status is the one carried by the last status event, or the
   starting one if there was none.
   */
  lemma {:induction false} StatusIsLatest(vm: PlayerVm, events: seq<PlayerEvent>)
    ensures (forall k | 0 <= k < |events| :: !IsStatus(events[k])) ==>
      Replay(vm, events).connectionStatus == vm.connectionStatus
    ensures forall k | LastStatusAt(events, k) :: Replay(vm, events).connectionStatus == events[k].emission.status
  {
    if |events| > 0 {
      var n := |events| - 1;
      var prefix := events[..n];
      StatusIsLatest(vm, prefix);
      var after := Replay(vm, events);
      assert after == Apply(Replay(vm, prefix), events[n]);
      if IsStatus(events[n]) {
        forall k | LastStatusAt(events, k)
          ensures after.connectionStatus == events[k].emission.status
        {
          assert k == n;
        }
      } else {
        assert after.connectionStatus == Replay(vm, prefix).connectionStatus;
        forall k | LastStatusAt(events, k)
          ensures after.connectionStatus == events[k].emission.status
        {
          assert prefix[k] == events[k];
          assert LastStatusAt(prefix, k);
        }
        if forall k | 0 <= k < |events| :: !IsStatus(events[k]) {
          assert forall k | 0 <= k < n :: !IsStatus(prefix[k]);
        }
      }
    }
  }

  /**
   Each other-players emission replaces the whole list: the list is the last
   one received, or the starting one if none was.
   */
  lemma {:induction false} OtherPlayersIsLatest(vm: PlayerVm, events: seq<PlayerEvent>)
    ensures (forall k | 0 <= k < |events| :: !IsOtherPlayers(events[k])) ==>
      Replay(vm, events).otherPlayers == vm.otherPlayers
    ensures forall k | LastOtherPlayersAt(events, k) :: Replay(vm, events).otherPlayers == events[k].emission.players
  {
    if |events| > 0 {
      var n := |events| - 1;
      var prefix := events[..n];
      OtherPlayersIsLatest(vm, prefix);
      var after := Replay(vm, events);
      assert after == Apply(Replay(vm, prefix), events[n]);
      if IsOtherPlayers(events[n]) {
        forall k | LastOtherPlayersAt(events, k)
          ensures after.otherPlayers == events[k].emission.players
        {
          assert k == n;
        }
      } else {
        assert after.otherPlayers == Replay(vm, prefix).otherPlayers;
        forall k | LastOtherPlayersAt(events, k)
          ensures after.otherPlayers == events[k].emission.players
        {
          assert prefix[k] == events[k];
          assert LastOtherPlayersAt(prefix, k);
        }
        if forall k | 0 <= k < |events| :: !IsOtherPlayers(events[k]) {
          assert forall k | 0 <= k < n :: !IsOtherPlayers(prefix[k]);
        }
      }
    }
  }

  /**
   The collectors never change the own login, and the own data is either the
   starting data or an echo that carried the own login: `playerUpdates`
   values and foreign echoes never reach it.
   */
  lemma {:induction false} OwnDataOnlyFromOwnEchoes(vm: PlayerVm, events: seq<PlayerEvent>)
    ensures Replay(vm, events).playerData.login == vm.playerData.login
    ensures Replay(vm, events).playerData == vm.playerData
      || exists k | 0 <= k < |events| :: events[k] == PositionEcho(Replay(vm, events).playerData)
  {
    if |events| > 0 {
      var n := |events| - 1;
      var prefix := events[..n];
      OwnDataOnlyFromOwnEchoes(vm, prefix);
      var before := Replay(vm, prefix);
      var after := Replay(vm, events);
      if after.playerData != vm.playerData && after.playerData != before.playerData {
        assert events[n] == PositionEcho(after.playerData);
      } else if after.playerData != vm.playerData {
        var k :| 0 <= k < n && prefix[k] == PositionEcho(before.playerData);
        assert events[k] == PositionEcho(after.playerData);
      }
    }
  }

  /** A `player` message from the server replaces the other-players list with that one player, leaving the own data alone. */
  lemma PlayerMessageReplacesOthers(codec: Codec, vm: PlayerVm, json: string, p: PlayerData)
    requires codec.decodePlayer(json) == Some(p)
    ensures var emissions := ProcessIncomingMessage(codec, PlayerPrefix + json);
      |emissions| == 1 && Apply(vm, Repository(emissions[0])) == vm.(otherPlayers := [p])
  {
    PlayerMessageRoundTrip(codec, json, p);
  }
}
