/**
 The WebSocket side of `repository/GameRepository.kt`: the classifier that
 turns one inbound text message into at most one emission on the
 repository's output channels, the loop over inbound frames, and the send
 path for position updates.

 JSON decoding is not modelled: each decoder is an arbitrary partial function
 supplied in a `Codec`, `None` standing for a decoding exception.
 */
module GameRepository {
  import opened Basics
  import opened Domain

  /** The repository's connection status values. */
  datatype ConnectionStatus = Connected | Disconnected | Failure(message: string)

  /** The `{"type":"game_started", "groupId": ..., "message": ...}` notification. */
  datatype GameStartedNotification = GameStartedNotification(kind: string, groupId: string, message: string)

  /** The decoders `Json.decodeFromString` stands for, one per target type. */
  datatype Codec = Codec(
    decodePlayer: string -> Option<PlayerData>,
    decodeOtherPlayer: string -> Option<OtherPlayer>,
    decodePlayerList: string -> Option<seq<PlayerData>>,
    decodeGameStarted: string -> Option<GameStartedNotification>)

  /** A value emitted on one of the repository's four shared flows. */
  datatype Emission =
    | PlayerUpdate(player: PlayerData)
    | OtherPlayersUpdate(players: seq<PlayerData>)
    | StatusUpdate(status: ConnectionStatus)
    | GameStarted(notification: GameStartedNotification)

  const PlayerPrefix: string := "player"
  const OtherPlayersPrefix: string := "otherPlayers"
  const ListOpener: string := "["
  const LoginKey: string := "login"
  const GameStartedMarker: string := "\"type\":\"game_started\""

  /** Which branch of the ordered `when` a message takes, with the text it decodes. */
  datatype MessageKind =
    | SinglePlayer(json: string)
    | PlayerWrapper(json: string)
    | PlayerArray(json: string)
    | GameStartedNote(json: string)
    | Unrecognized

  /** The `when` in `processIncomingMessage`: the first matching test wins. */
  function Classify(message: string): (k: MessageKind)
    ensures k.SinglePlayer? ==> PlayerPrefix + k.json == message
    ensures k.PlayerWrapper? ==> OtherPlayersPrefix + k.json == message
    ensures k.PlayerArray? || k.GameStartedNote? ==> k.json == message
  {
    if StartsWith(message, PlayerPrefix) then SinglePlayer(message[|PlayerPrefix|..])
    else if StartsWith(message, OtherPlayersPrefix) then PlayerWrapper(message[|OtherPlayersPrefix|..])
    else if StartsWith(message, ListOpener) && Contains(message, LoginKey) then PlayerArray(message)
    else if Contains(message, GameStartedMarker) then GameStartedNote(message)
    else Unrecognized
  }

  /**
   `processIncomingMessage`: classify, decode, and emit. A decoding failure
   is caught inside the function and emits nothing.
   */
  function ProcessIncomingMessage(codec: Codec, message: string): (r: seq<Emission>)
    ensures |r| <= 1
    ensures forall i | 0 <= i < |r| :: r[i].OtherPlayersUpdate? || r[i].GameStarted?
    ensures StartsWith(message, PlayerPrefix) ==>
      r == (match codec.decodePlayer(message[|PlayerPrefix|..])
            case Some(p) => [OtherPlayersUpdate([p])]
            case None => [])
    ensures !StartsWith(message, PlayerPrefix) && StartsWith(message, OtherPlayersPrefix) ==>
      r == (match codec.decodeOtherPlayer(message[|OtherPlayersPrefix|..])
            case Some(w) => [OtherPlayersUpdate(w.player)]
            case None => [])
    ensures !StartsWith(message, PlayerPrefix) && !StartsWith(message, OtherPlayersPrefix)
            && StartsWith(message, ListOpener) && Contains(message, LoginKey) ==>
      r == (match codec.decodePlayerList(message)
            case Some(ps) => [OtherPlayersUpdate(ps)]
            case None => [])
    ensures !StartsWith(message, PlayerPrefix) && !StartsWith(message, OtherPlayersPrefix)
            && !(StartsWith(message, ListOpener) && Contains(message, LoginKey))
            && Contains(message, GameStartedMarker) ==>
      r == (match codec.decodeGameStarted(message)
            case Some(n) => [GameStarted(n)]
            case None => [])
    ensures Classify(message).Unrecognized? ==> r == []
  {
    match Classify(message)
    case SinglePlayer(json) =>
      (match codec.decodePlayer(json)
       case Some(p) => [OtherPlayersUpdate([p])]
       case None => [])
    case PlayerWrapper(json) =>
      (match codec.decodeOtherPlayer(json)
       case Some(w) => [OtherPlayersUpdate(w.player)]
       case None => [])
    case PlayerArray(json) =>
      (match codec.decodePlayerList(json)
       case Some(ps) => [OtherPlayersUpdate(ps)]
       case None => [])
    case GameStartedNote(json) =>
      (match codec.decodeGameStarted(json)
       case Some(n) => [GameStarted(n)]
       case None => [])
    case Unrecognized => []
  }

  /** A `player` message emits the decoded player, alone in a list, on the other-players flow. */
  lemma PlayerMessageRoundTrip(codec: Codec, json: string, p: PlayerData)
    requires codec.decodePlayer(json) == Some(p)
    ensures ProcessIncomingMessage(codec, PlayerPrefix + json) == [OtherPlayersUpdate([p])]
  {
    StartsWithAppend(PlayerPrefix, json);
  }

  /** An `otherPlayers` message emits the wrapper's list unchanged. */
  lemma OtherPlayersMessageRoundTrip(codec: Codec, json: string, w: OtherPlayer)
    requires codec.decodeOtherPlayer(json) == Some(w)
    ensures ProcessIncomingMessage(codec, OtherPlayersPrefix + json) == [OtherPlayersUpdate(w.player)]
  {
    var message := OtherPlayersPrefix + json;
    StartsWithAppend(OtherPlayersPrefix, json);
    assert message[0] == 'o';
  }

  /** A message none of the four tests accepts emits nothing, whatever the decoders do. */
  lemma UnmatchedMessageIsDropped(codec: Codec, message: string)
    requires !StartsWith(message, PlayerPrefix) && !StartsWith(message, OtherPlayersPrefix)
    requires !StartsWith(message, ListOpener) || !Contains(message, LoginKey)
    requires !Contains(message, GameStartedMarker)
    ensures ProcessIncomingMessage(codec, message) == []
  {
  }

  /**
   The classifier never feeds a message to two decoders: the kind it picks is
   determined by the message alone, and a message in `player` form is never
   treated as an `otherPlayers`, list or game-started message.
   */
  lemma PlayerPrefixShadowsLaterTests(codec: Codec, json: string)
    ensures Classify(PlayerPrefix + json) == SinglePlayer(json)
  {
    StartsWithAppend(PlayerPrefix, json);
  }

  /**
   `GameStartedNotification` is declared without `@Serializable`, so its
   decoder can fail on every input. With such a decoder, no message, not
   even one carrying the game-started marker, ever yields a notification.
   */
  lemma GameStartedNeedsDecoder(codec: Codec, message: string)
    requires forall json :: codec.decodeGameStarted(json).None?
    ensures forall i | 0 <= i < |ProcessIncomingMessage(codec, message)| :: !ProcessIncomingMessage(codec, message)[i].GameStarted?
  {
  }

  // ---------------------------------------------------------------------------
  // The frame loop of `connectToGame`
  // ---------------------------------------------------------------------------

  /** The WebSocket frame types the loop distinguishes; `Binary` reaches the `else` branch. */
  datatype Frame = Text(text: string) | Binary(bytes: seq<bv8>) | Close | Ping(buffer: seq<bv8>) | Pong(buffer: seq<bv8>)

  /** What the client sends on the session. */
  datatype Outbound = PlayerJson(player: PlayerData) | PongFrame(buffer: seq<bv8>)

  /**
   The loop's effect: emissions in order, frames sent back, whether the stored
   session is still set afterwards, and how many inbound frames were consumed.
   */
  datatype LoopResult = LoopResult(emissions: seq<Emission>, sent: seq<Outbound>, sessionSet: bool, consumed: nat)

  /** The `for (message in incoming)` loop, with the session already stored. */
  function FrameLoop(codec: Codec, frames: seq<Frame>): (r: LoopResult)
    ensures r.consumed <= |frames|
    ensures r.sessionSet ==> r.consumed == |frames|
    ensures forall i | 0 <= i < |r.emissions| :: !r.emissions[i].PlayerUpdate?
    ensures forall i | 0 <= i < |r.sent| :: r.sent[i].PongFrame?
  {
    if |frames| == 0 then LoopResult([], [], true, 0)
    else
      match frames[0]
      case Close => LoopResult([StatusUpdate(Disconnected)], [], false, 1)
      case Text(text) =>
        var rest := FrameLoop(codec, frames[1..]);
        rest.(emissions := ProcessIncomingMessage(codec, text) + rest.emissions, consumed := rest.consumed + 1)
      case Ping(buffer) =>
        var rest := FrameLoop(codec, frames[1..]);
        rest.(sent := [PongFrame(buffer)] + rest.sent, consumed := rest.consumed + 1)
      case Pong(_) =>
        var rest := FrameLoop(codec, frames[1..]);
        rest.(consumed := rest.consumed + 1)
      case Binary(_) =>
        var rest := FrameLoop(codec, frames[1..]);
        rest.(consumed := rest.consumed + 1)
  }

  predicate NoClose(frames: seq<Frame>) {
    forall i | 0 <= i < |frames| :: !frames[i].Close?
  }

  /** Reference reading: the emissions of the text frames, in arrival order. */
  function TextEmissions(codec: Codec, frames: seq<Frame>): seq<Emission> {
    if |frames| == 0 then []
    else
      (if frames[0].Text? then ProcessIncomingMessage(codec, frames[0].text) else [])
      + TextEmissions(codec, frames[1..])
  }

  /** Reference reading: one pong per ping, carrying the ping's buffer, in arrival order. */
  function PongReplies(frames: seq<Frame>): seq<Outbound> {
    if |frames| == 0 then []
    else (if frames[0].Ping? then [PongFrame(frames[0].buffer)] else []) + PongReplies(frames[1..])
  }

  /**
   Before any Close, the loop classifies every text frame in arrival order,
   answers every ping with a pong carrying the same buffer, and keeps the
   session.
   */
  lemma {:induction false} FrameLoopWithoutClose(codec: Codec, frames: seq<Frame>)
    requires NoClose(frames)
    ensures FrameLoop(codec, frames) ==
      LoopResult(TextEmissions(codec, frames), PongReplies(frames), true, |frames|)
  {
    if |frames| > 0 {
      FrameLoopWithoutClose(codec, frames[1..]);
    }
  }

  /**
   A Close frame ends the loop: the frames before it are handled as above,
   then the session is cleared, Disconnected is emitted, and no later frame is
   looked at.
   */
  lemma {:induction false} FrameLoopStopsAtClose(codec: Codec, before: seq<Frame>, after: seq<Frame>)
    requires NoClose(before)
    ensures FrameLoop(codec, before + [Close] + after) ==
      LoopResult(TextEmissions(codec, before) + [StatusUpdate(Disconnected)], PongReplies(before), false, |before| + 1)
  {
    var frames := before + [Close] + after;
    if |before| == 0 {
      assert frames[0] == Close;
    } else {
      var f := before[0];
      assert frames[0] == f && !f.Close?;
      assert frames[1..] == before[1..] + [Close] + after;
      FrameLoopStopsAtClose(codec, before[1..], after);
      var head := if f.Text? then ProcessIncomingMessage(codec, f.text) else [];
      var pong := if f.Ping? then [PongFrame(f.buffer)] else [];
      assert TextEmissions(codec, before) == head + TextEmissions(codec, before[1..]);
      assert PongReplies(before) == pong + PongReplies(before[1..]);
      AppendAssociates(head, TextEmissions(codec, before[1..]), [StatusUpdate(Disconnected)]);
    }
  }

  /** The repository's `processIncomingMessage` and frame loop never emit on the player-updates flow. */
  lemma FrameLoopNeverEmitsPlayerUpdates(codec: Codec, frames: seq<Frame>, p: PlayerData)
    ensures PlayerUpdate(p) !in FrameLoop(codec, frames).emissions
  {
  }

  /** The index of the first Close frame, or the length when there is none. */
  function FirstClose(frames: seq<Frame>): (c: nat)
    ensures c <= |frames| && NoClose(frames[..c])
    ensures c < |frames| <==> !NoClose(frames)
    ensures c < |frames| ==> frames[c].Close?
  {
    if |frames| == 0 then 0
    else if frames[0].Close? then 0
    else
      var c := 1 + FirstClose(frames[1..]);
      assert forall i | 1 <= i < c :: frames[..c][i] == frames[1..][..c - 1][i - 1];
      c
  }

  /** The whole of `connectToGame` once the WebSocket is open. */
  datatype SessionResult = SessionResult(emissions: seq<Emission>, sent: seq<Outbound>, sessionSet: bool)

  /**
   `connectToGame`: emit Connected, store the session, send the player's data
   as the first frame, then run the frame loop. If the inbound channel ends
   without a Close frame, the session stays stored and nothing more is emitted.
   */
  function ConnectToGame(codec: Codec, player: PlayerData, frames: seq<Frame>): (r: SessionResult)
    ensures |r.emissions| >= 1 && r.emissions[0] == StatusUpdate(Connected)
    ensures |r.sent| >= 1 && r.sent[0] == PlayerJson(player)
    ensures NoClose(frames) ==> r.sessionSet
    ensures !NoClose(frames) ==> !r.sessionSet && r.emissions[|r.emissions| - 1] == StatusUpdate(Disconnected)
  {
    var loop := FrameLoop(codec, frames);
    var c := FirstClose(frames);
    if c < |frames| then
      FrameLoopStopsAtClose(codec, frames[..c], frames[c + 1..]);
      assert frames[..c] + [Close] + frames[c + 1..] == frames;
      SessionResult([StatusUpdate(Connected)] + loop.emissions, [PlayerJson(player)] + loop.sent, loop.sessionSet)
    else
      FrameLoopWithoutClose(codec, frames);
      SessionResult([StatusUpdate(Connected)] + loop.emissions, [PlayerJson(player)] + loop.sent, loop.sessionSet)
  }

  const SendFailedPrefix: string := "Ошибка отправки обновления позиции: "

  /**
   What `sendPlayerUpdate` did: the frames it tried to send, and the message
   of the `NetworkException` it threw, if any.
   */
  datatype SendResult = SendResult(attempted: seq<Outbound>, thrown: Option<string>)

  /**
   `sendPlayerUpdate`: with a stored session the player's data is encoded and
   sent, the session behaving as `delivery`; a failure there is rethrown as a
   `NetworkException` carrying the original message. With no session nothing
   is sent and nothing is thrown.
   */
  function SendPlayerUpdate(sessionSet: bool, player: PlayerData, delivery: Call<()>): (r: SendResult)
    ensures sessionSet <==> |r.attempted| > 0
    ensures sessionSet ==> r.attempted == [PlayerJson(player)]
    ensures r.thrown.Some? <==> sessionSet && delivery.Threw?
    ensures r.thrown.Some? ==> r.thrown.value == SendFailedPrefix + Describe(delivery.reason)
  {
    if !sessionSet then SendResult([], None)
    else match delivery
      case Returned(_) => SendResult([PlayerJson(player)], None)
      case Threw(reason) => SendResult([PlayerJson(player)], Some(SendFailedPrefix + Describe(reason)))
  }

  /** After the server closed the session, position updates are dropped, and no send error can arise. */
  lemma NoSendAfterClose(codec: Codec, player: PlayerData, before: seq<Frame>, after: seq<Frame>, update: PlayerData, delivery: Call<()>)
    requires NoClose(before)
    ensures SendPlayerUpdate(ConnectToGame(codec, player, before + [Close] + after).sessionSet, update, delivery) == SendResult([], None)
  {
    FrameLoopStopsAtClose(codec, before, after);
  }
}
