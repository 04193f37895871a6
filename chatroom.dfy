/** The local chat room: sending a message appends it to the room's list,
    the Enter key sends, and avatars show the sender's initial. */
module ChatRoom {
  import opened JsText

  datatype MessageType = Text | FileMessage | AudioMessage

  /** A `Message`; `timestamp` is the value of `new Date()` in milliseconds. */
  datatype Message = Message(id: JsString, sender: JsString, content: JsString, timestamp: nat, msgType: MessageType)

  /** `getInitials(name)`: the first unit, upper-cased, or "" for an empty name. */
  function GetInitials(name: JsString): (r: JsString)
    ensures name == [] <==> r == []
    ensures |r| <= 1
    ensures name != [] ==> r == [UpperUnit(name[0])]
  {
    ToUpperAscii(CharAt(name, 0))
  }

  /** The key `handleKeyPress` reacts to. */
  function EnterKey(): JsString { Units("Enter") }

  /** The message `sendMessage` builds; `now` is `Date.now()`. */
  function NewMessage(userName: JsString, input: JsString, now: nat): (m: Message)
    ensures m.sender == userName && m.content == Trim(input) && m.msgType == Text
    ensures m.id == Decimal(now) && m.timestamp == now
  {
    Message(Decimal(now), userName, Trim(input), now, Text)
  }

  /** Messages sent at different instants have different ids. */
  lemma IdsDistinct(userName: JsString, a: JsString, b: JsString, t1: nat, t2: nat)
    requires t1 != t2
    ensures NewMessage(userName, a, t1).id != NewMessage(userName, b, t2).id
  {
    if Decimal(t1) == Decimal(t2) {
      DecimalInjective(t1, t2);
    }
  }

  class ChatState {
    const roomCode: JsString
    const userName: JsString
    var messages: seq<Message>
    var newMessage: JsString
    var isTyping: bool
    var connectedUsers: seq<JsString>

    /** `connectedUsers` keeps its initial value: no handler updates it. */
    predicate Valid()
      reads this
    {
      connectedUsers == [userName]
    }

    constructor (roomCode: JsString, userName: JsString)
      ensures this.roomCode == roomCode && this.userName == userName
      ensures messages == [] && newMessage == [] && !isTyping
      ensures Valid()
    {
      this.roomCode := roomCode;
      this.userName := userName;
      messages, newMessage, isTyping := [], [], false;
      connectedUsers := [userName];
    }

    /** The input's `onChange`. */
    method SetNewMessage(value: JsString)
      requires Valid()
      modifies this
      ensures newMessage == value
      ensures messages == old(messages) && isTyping == old(isTyping)
      ensures Valid()
    {
      newMessage := value;
    }

    /** `sendMessage` at time `now`: a blank input changes nothing; otherwise
        one text message with the trimmed input goes to the end of the list,
        the input is cleared and the typing indicator is shown. */
    method SendMessage(now: nat)
      requires Valid()
      modifies this
      ensures IsBlank(old(newMessage)) ==>
                messages == old(messages) && newMessage == old(newMessage) && isTyping == old(isTyping)
      ensures !IsBlank(old(newMessage)) ==>
                messages == old(messages) + [NewMessage(userName, old(newMessage), now)] && newMessage == [] && isTyping
      ensures Valid()
    {
      if Trim(newMessage) == [] {
        return;
      }
      var message := Message(Decimal(now), userName, Trim(newMessage), now, Text);
      messages := messages + [message];
      newMessage := [];
      isTyping := true;
    }

    /** The one-second timeout that hides the typing indicator. */
    method TypingTimeout()
      requires Valid()
      modifies this
      ensures !isTyping && messages == old(messages) && newMessage == old(newMessage)
      ensures Valid()
    {
      isTyping := false;
    }

    /** `handleKeyPress`: Enter without Shift sends; any other key does nothing. */
    method HandleKeyPress(key: JsString, shiftKey: bool, now: nat)
      requires Valid()
      modifies this
      ensures key == EnterKey() && !shiftKey && !IsBlank(old(newMessage)) ==>
                messages == old(messages) + [NewMessage(userName, old(newMessage), now)] && newMessage == [] && isTyping
      ensures !(key == EnterKey() && !shiftKey) || IsBlank(old(newMessage)) ==>
                messages == old(messages) && newMessage == old(newMessage) && isTyping == old(isTyping)
      ensures Valid()
    {
      if key == EnterKey() && !shiftKey {
        SendMessage(now);
      }
    }
  }
}
