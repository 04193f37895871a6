/** The top-level screen switch: the welcome screen until a room is created
    or joined, then the chat room until the user leaves. */
module OmegaApp {
  import opened JsText

  datatype AppState = Welcome | Chat

  /** `RoomData`. */
  datatype RoomData = RoomData(code: JsString, userName: JsString)

  /** What the component renders. */
  datatype Screen = WelcomeScreen | ChatRoomScreen(roomCode: JsString, userName: JsString) | NoScreen

  /** The render selection: the welcome screen, the chat room when room data
      is present, and `null` otherwise. */
  function Render(appState: AppState, roomData: Option<RoomData>): Screen
  {
    if appState == Welcome then WelcomeScreen
    else if roomData.Some? then ChatRoomScreen(roomData.value.code, roomData.value.userName)
    else NoScreen
  }

  /** The states the three handlers can reach from the initial one: the
      chat state always has room data, and the welcome state never has. */
  predicate Reachable(appState: AppState, roomData: Option<RoomData>)
  {
    appState == Chat <==> roomData.Some?
  }

  /** In a reachable state the `return null` branch is never taken, and the
      chat room is shown with exactly the room data held. */
  lemma RenderNeverNull(appState: AppState, roomData: Option<RoomData>)
    requires Reachable(appState, roomData)
    ensures Render(appState, roomData) != NoScreen
    ensures appState == Chat ==>
              Render(appState, roomData) == ChatRoomScreen(roomData.value.code, roomData.value.userName)
    ensures appState == Welcome ==> Render(appState, roomData) == WelcomeScreen
  {
  }

  /** Without the invariant the null branch is reachable: chat with no room data. */
  lemma NullBranchNeedsInvariant()
    ensures Render(Chat, None) == NoScreen && !Reachable(Chat, None)
  {
  }

  class App {
    var appState: AppState
    var roomData: Option<RoomData>

    predicate Valid()
      reads this
    {
      Reachable(appState, roomData)
    }

    constructor ()
      ensures appState == Welcome && roomData.None?
      ensures Valid()
    {
      appState, roomData := Welcome, None;
    }

    /** `handleCreateRoom`. */
    method HandleCreateRoom(roomCode: JsString, userName: JsString)
      modifies this
      ensures roomData == Some(RoomData(roomCode, userName)) && appState == Chat
      ensures Valid()
    {
      roomData := Some(RoomData(roomCode, userName));
      appState := Chat;
    }

    /** `handleJoinRoom`: the same two updates as creation. */
    method HandleJoinRoom(roomCode: JsString, userName: JsString)
      modifies this
      ensures roomData == Some(RoomData(roomCode, userName)) && appState == Chat
      ensures Valid()
    {
      roomData := Some(RoomData(roomCode, userName));
      appState := Chat;
    }

    /** `handleLeaveRoom`. */
    method HandleLeaveRoom()
      modifies this
      ensures roomData.None? && appState == Welcome
      ensures Valid()
    {
      roomData := None;
      appState := Welcome;
    }

    /** One render of the component. */
    method View() returns (screen: Screen)
      requires Valid()
      ensures screen == Render(appState, roomData)
      ensures screen != NoScreen
    {
      RenderNeverNull(appState, roomData);
      if appState == Welcome {
        return WelcomeScreen;
      }
      if appState == Chat && roomData.Some? {
        return ChatRoomScreen(roomData.value.code, roomData.value.userName);
      }
      return NoScreen;
    }
  }
}
