/** The entry screen: a user names themself and either creates a room,
    whose code is drawn at random, or joins one by its code. The simulated
    network delay before each callback is an explicit completion step. */
module WelcomeScreen {
  import opened JsText

  // ----- generateRoomCode -----

  /** Position `i` of "ABCDEFGHIJKLMNOPQRSTUVWXYZ0123456789". */
  function RoomCodeAlphabetAt(i: nat): CodeUnit
    requires i < 36
  {
    if i < 26 then 'A' as int + i else '0' as int + (i - 26)
  }

  function RoomCodeAlphabet(): (r: JsString)
    ensures |r| == 36
    ensures forall i | 0 <= i < 36 :: r[i] == RoomCodeAlphabetAt(i)
  {
    seq(36, i requires 0 <= i < 36 => RoomCodeAlphabetAt(i))
  }

  predicate IsRoomCodeUnit(c: CodeUnit)
  {
    'A' as int <= c <= 'Z' as int || '0' as int <= c <= '9' as int
  }

  /** The alphabet holds exactly the upper-case letters and the digits. */
  lemma RoomCodeAlphabetUnits(c: CodeUnit)
    ensures c in RoomCodeAlphabet() <==> IsRoomCodeUnit(c)
  {
    if IsRoomCodeUnit(c) {
      var i := if c <= 'Z' as int && c >= 'A' as int then c - 'A' as int else c - '0' as int + 26;
      assert RoomCodeAlphabet()[i] == c;
    }
  }

  /** `generateRoomCode`, each of its six iterations consuming one value of `Math.random()`. */
  method GenerateRoomCode(draws: seq<real>) returns (result: JsString)
    requires |draws| == 6
    ensures result == DrawnString(RoomCodeAlphabet(), draws)
  {
    result := [];
    var i := 0;
    while i < 6
      invariant 0 <= i <= 6
      invariant result == DrawnString(RoomCodeAlphabet(), draws[..i])
    {
      assert draws[..i + 1][..i] == draws[..i];
      result := result + CharAt(RoomCodeAlphabet(), ScaledIndex(draws[i], |RoomCodeAlphabet()|));
      i := i + 1;
    }
    assert draws[..i] == draws;
  }

  /** A generated code has six units, each an upper-case letter or a digit;
      so it has no whitespace and survives the join normalisation unchanged. */
  lemma GeneratedCodeShape(draws: seq<real>)
    requires |draws| == 6 && AreRandomValues(draws)
    ensures var code := DrawnString(RoomCodeAlphabet(), draws);
      |code| == 6 && (forall i | 0 <= i < 6 :: IsRoomCodeUnit(code[i])) &&
      NormalizedCode(code) == code && JoinCodeAcceptable(code)
  {
    var code := DrawnString(RoomCodeAlphabet(), draws);
    DrawnStringShape(RoomCodeAlphabet(), draws);
    forall i | 0 <= i < 6
      ensures IsRoomCodeUnit(code[i])
    {
      ScaledIndexInRange(draws[i], 36);
    }
    NoSpaceTrim(code);
    assert ToUpperAscii(code) == code;
  }

  // ----- Guards and normalisation -----

  /** The code `handleJoinRoom` passes on: `roomCode.trim().toUpperCase()`. */
  function NormalizedCode(roomCode: JsString): (r: JsString)
    ensures |r| == |Trim(roomCode)| <= |roomCode|
    ensures forall i | 0 <= i < |r| :: r[i] == UpperUnit(roomCode[LeadingSpace(roomCode) + i])
    ensures r == [] <==> IsBlank(roomCode)
  {
    ToUpperAscii(Trim(roomCode))
  }

  /** The code-related part of the join button's condition. */
  predicate JoinCodeAcceptable(roomCode: JsString)
  {
    !IsBlank(roomCode) && |roomCode| == 6
  }

  /** `disabled={!userName.trim() || isLoading}`, negated. */
  predicate CreateEnabled(userName: JsString, isLoading: bool)
  {
    !IsBlank(userName) && !isLoading
  }

  /** `disabled={!userName.trim() || !roomCode.trim() || roomCode.length !== 6 || isLoading}`, negated. */
  predicate JoinEnabled(userName: JsString, roomCode: JsString, isLoading: bool): (r: bool)
    ensures r ==> CreateEnabled(userName, isLoading) && |roomCode| == 6
  {
    !IsBlank(userName) && JoinCodeAcceptable(roomCode) && !isLoading
  }

  /** A string with no whitespace is its own trim. */
  lemma NoSpaceTrim(s: JsString)
    requires forall i | 0 <= i < |s| :: !IsTrimmable(s[i])
    ensures Trim(s) == s
  {
    if s != [] {
      assert !IsTrimmable(s[0]);
      assert LeadingSpace(s) == 0;
      assert !IsBlank(s);
    }
  }

  /** An enabled join button lets `handleJoinRoom` past its guard, with a
      non-empty trimmed name and a code of at most six upper-case-normalised
      units; upper-casing what `onChange` already upper-cased changes nothing. */
  lemma JoinButtonPassesGuard(userName: JsString, roomCode: JsString, isLoading: bool)
    requires JoinEnabled(userName, roomCode, isLoading)
    ensures Trim(userName) != [] && Trim(roomCode) != []
    ensures 0 < |NormalizedCode(roomCode)| <= 6
    ensures ToUpperAscii(roomCode) == roomCode ==> NormalizedCode(roomCode) == Trim(roomCode)
  {
    var t := Trim(roomCode);
    var n := NormalizedCode(roomCode);
    if ToUpperAscii(roomCode) == roomCode {
      forall i | 0 <= i < |t|
        ensures n[i] == t[i]
      {
        var j := LeadingSpace(roomCode) + i;
        assert t[i] == roomCode[j];
        assert UpperUnit(roomCode[j]) == ToUpperAscii(roomCode)[j];
      }
      assert n == t;
    }
  }

  /** An enabled create button lets `handleCreateRoom` past its guard. */
  lemma CreateButtonPassesGuard(userName: JsString, isLoading: bool)
    requires CreateEnabled(userName, isLoading)
    ensures Trim(userName) != []
  {
  }

  // ----- The component -----

  /** A callback waiting for its simulated delay to pass. */
  datatype Request = CreateRequest(code: JsString, name: JsString) | JoinRequest(code: JsString, name: JsString)

  /** The two inputs, `isLoading`, the requests still waiting, and the calls
      made to `onCreateRoom` and `onJoinRoom`. */
  class EntryForm {
    var userName: JsString
    var roomCode: JsString
    var isLoading: bool
    var pending: seq<Request>
    var created: seq<Request>
    var joined: seq<Request>

    /** Reached through the buttons, at most one request waits, and exactly then the form is loading. */
    predicate Valid()
      reads this
    {
      |pending| <= 1 && (isLoading <==> |pending| == 1)
    }

    constructor ()
      ensures userName == [] && roomCode == [] && !isLoading
      ensures pending == [] && created == [] && joined == []
      ensures Valid()
    {
      userName, roomCode, isLoading := [], [], false;
      pending, created, joined := [], [], [];
    }

    /** The name input's `onChange`; the input holds at most 20 units. */
    method SetUserName(value: JsString)
      requires Valid() && |value| <= 20
      modifies this
      ensures userName == value
      ensures roomCode == old(roomCode) && isLoading == old(isLoading) && pending == old(pending)
      ensures created == old(created) && joined == old(joined)
      ensures Valid()
    {
      userName := value;
    }

    /** The code input's `onChange`, which upper-cases what was typed; the input holds at most 6 units. */
    method SetRoomCode(value: JsString)
      requires Valid() && |value| <= 6
      modifies this
      ensures roomCode == ToUpperAscii(value)
      ensures userName == old(userName) && isLoading == old(isLoading) && pending == old(pending)
      ensures created == old(created) && joined == old(joined)
      ensures Valid()
    {
      roomCode := ToUpperAscii(value);
    }

    /** `handleCreateRoom` up to its `await`: nothing for a blank name,
        otherwise loading with a freshly drawn code and the trimmed name. */
    method HandleCreateRoom(draws: seq<real>)
      requires |draws| == 6
      modifies this
      ensures IsBlank(old(userName)) ==> isLoading == old(isLoading) && pending == old(pending)
      ensures !IsBlank(old(userName)) ==>
                isLoading && pending == old(pending) + [CreateRequest(DrawnString(RoomCodeAlphabet(), draws), Trim(old(userName)))]
      ensures userName == old(userName) && roomCode == old(roomCode) && created == old(created) && joined == old(joined)
    {
      var name := Trim(userName);
      if name == [] {
        return;
      }
      isLoading := true;
      var code := GenerateRoomCode(draws);
      pending := pending + [CreateRequest(code, name)];
    }

    /** `handleJoinRoom` up to its `await`: both trimmed fields must be
        non-empty; the code is passed trimmed and upper-cased. */
    method HandleJoinRoom()
      modifies this
      ensures IsBlank(old(userName)) || IsBlank(old(roomCode)) ==> isLoading == old(isLoading) && pending == old(pending)
      ensures !IsBlank(old(userName)) && !IsBlank(old(roomCode)) ==>
                isLoading && pending == old(pending) + [JoinRequest(NormalizedCode(old(roomCode)), Trim(old(userName)))]
      ensures userName == old(userName) && roomCode == old(roomCode) && created == old(created) && joined == old(joined)
    {
      var name, code := Trim(userName), Trim(roomCode);
      if name == [] || code == [] {
        return;
      }
      isLoading := true;
      pending := pending + [JoinRequest(ToUpperAscii(code), name)];
    }

    /** The delay of waiting request `i` has passed: its callback runs, then
        `setIsLoading(false)`. */
    method Complete(i: nat)
      requires i < |pending|
      modifies this
      ensures pending == old(pending)[..i] + old(pending)[i + 1..] && !isLoading
      ensures old(pending)[i].CreateRequest? ==> created == old(created) + [old(pending)[i]] && joined == old(joined)
      ensures old(pending)[i].JoinRequest? ==> joined == old(joined) + [old(pending)[i]] && created == old(created)
      ensures userName == old(userName) && roomCode == old(roomCode)
      ensures old(|pending|) == 1 ==> Valid()
    {
      var r := pending[i];
      pending := pending[..i] + pending[i + 1..];
      if r.CreateRequest? {
        created := created + [r];
      } else {
        joined := joined + [r];
      }
      isLoading := false;
    }

    /** A click on the create button, which does nothing while it is disabled. */
    method ClickCreate(draws: seq<real>)
      requires Valid() && |draws| == 6
      modifies this
      ensures CreateEnabled(old(userName), old(isLoading)) ==>
                pending == [CreateRequest(DrawnString(RoomCodeAlphabet(), draws), Trim(old(userName)))]
      ensures !CreateEnabled(old(userName), old(isLoading)) ==> pending == old(pending)
      ensures isLoading == (old(isLoading) || CreateEnabled(old(userName), old(isLoading)))
      ensures userName == old(userName) && roomCode == old(roomCode) && created == old(created) && joined == old(joined)
      ensures Valid()
    {
      if CreateEnabled(userName, isLoading) {
        HandleCreateRoom(draws);
      }
    }

    /** A click on the join button, which does nothing while it is disabled. */
    method ClickJoin()
      requires Valid()
      modifies this
      ensures JoinEnabled(old(userName), old(roomCode), old(isLoading)) ==>
                pending == [JoinRequest(NormalizedCode(old(roomCode)), Trim(old(userName)))]
      ensures !JoinEnabled(old(userName), old(roomCode), old(isLoading)) ==> pending == old(pending)
      ensures isLoading == (old(isLoading) || JoinEnabled(old(userName), old(roomCode), old(isLoading)))
      ensures userName == old(userName) && roomCode == old(roomCode) && created == old(created) && joined == old(joined)
      ensures Valid()
    {
      if JoinEnabled(userName, roomCode, isLoading) {
        HandleJoinRoom();
      }
    }
  }
}
