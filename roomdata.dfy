/** The two computations of useRoomData kept in the model: the record
    `sendMessage` inserts into the `messages` table, and the storage path
    `uploadFile` chooses for a file. */
module RoomData {
  import opened JsText

  datatype MessageType = TextType | FileType | AudioType | VideoType | ImageType

  /** The optional `fileData` argument. */
  datatype FileData = FileData(url: JsString, name: JsString, size: nat)

  /** `messageData`; every `null` is `None`. */
  datatype MessageRecord = MessageRecord(
    roomId: JsString,
    participantId: JsString,
    content: Option<JsString>,
    messageType: MessageType,
    fileUrl: Option<JsString>,
    fileName: Option<JsString>,
    fileSize: Option<nat>)

  /** JavaScript truthiness of a `string | null`. */
  predicate Truthy(s: Option<JsString>)
  {
    s.Some? && s.value != []
  }

  /** `value || null` for a string. */
  function OrNull(s: Option<JsString>): (r: Option<JsString>)
    ensures r.Some? <==> Truthy(s)
    ensures r.Some? ==> r == s
  {
    if Truthy(s) then s else None
  }

  /** The record `sendMessage` inserts, or `None` when it returns early
      because the room or the participant id is missing (or empty). */
  function BuildMessageData(roomId: Option<JsString>, participantId: Option<JsString>, content: JsString,
                            messageType: MessageType, fileData: Option<FileData>): (r: Option<MessageRecord>)
    ensures r.None? <==> !Truthy(roomId) || !Truthy(participantId)
    ensures r.Some? ==> r.value.roomId == roomId.value && r.value.participantId == participantId.value
    ensures r.Some? ==> r.value.messageType == messageType
    ensures r.Some? ==> (r.value.content.Some? <==> messageType == TextType)
    ensures r.Some? && messageType == TextType ==> r.value.content == Some(content)
    ensures r.Some? ==> (r.value.fileUrl.Some? <==> fileData.Some? && fileData.value.url != [])
    ensures r.Some? ==> (r.value.fileName.Some? <==> fileData.Some? && fileData.value.name != [])
    ensures r.Some? ==> (r.value.fileSize.Some? <==> fileData.Some? && fileData.value.size != 0)
    ensures r.Some? && r.value.fileUrl.Some? ==> r.value.fileUrl.value == fileData.value.url
    ensures r.Some? && r.value.fileName.Some? ==> r.value.fileName.value == fileData.value.name
    ensures r.Some? && r.value.fileSize.Some? ==> r.value.fileSize.value == fileData.value.size
  {
    if !Truthy(roomId) || !Truthy(participantId) then None
    else
      Some(MessageRecord(
        roomId.value,
        participantId.value,
        if messageType == TextType then Some(content) else None,
        messageType,
        OrNull(if fileData.Some? then Some(fileData.value.url) else None),
        OrNull(if fileData.Some? then Some(fileData.value.name) else None),
        if fileData.Some? && fileData.value.size != 0 then Some(fileData.value.size) else None))
  }

  /** `||` turns an empty file name, an empty URL and a zero size into `null`
      just as a missing `fileData` does. */
  lemma FalsyFileFieldsDropped(roomId: JsString, participantId: JsString, content: JsString, messageType: MessageType)
    requires roomId != [] && participantId != []
    ensures var r := BuildMessageData(Some(roomId), Some(participantId), content, messageType, Some(FileData([], [], 0)));
      r.Some? && r == BuildMessageData(Some(roomId), Some(participantId), content, messageType, None)
  {
  }

  function Dot(): CodeUnit { '.' as int }
  function Slash(): CodeUnit { '/' as int }

  /** `name.split('.').pop()`: the text after the last '.', the whole name when it has none. */
  function Extension(name: JsString): (r: JsString)
    ensures |r| <= |name| && Dot() !in r
    decreases |name|
  {
    if name == [] then []
    else if name[|name| - 1] == Dot() then []
    else Extension(name[..|name| - 1]) + [name[|name| - 1]]
  }

  /** The extension is the longest '.'-free end of the name: a suffix with
      no '.', preceded by a '.' unless it is the whole name. */
  lemma {:induction false} ExtensionSpec(name: JsString)
    ensures var r := Extension(name);
      |r| <= |name| && r == name[|name| - |r|..] && Dot() !in r &&
      (|r| < |name| ==> name[|name| - |r| - 1] == Dot()) &&
      (Dot() !in name ==> r == name)
    decreases |name|
  {
    if name != [] && name[|name| - 1] != Dot() {
      var init := name[..|name| - 1];
      ExtensionSpec(init);
      var prior := Extension(init);
      assert Extension(name) == prior + [name[|name| - 1]];
      assert init[|init| - |prior|..] == prior;
      assert name[|name| - |prior| - 1..] == init[|init| - |prior|..] + [name[|name| - 1]];
      assert Dot() !in name ==> Dot() !in init;
    }
  }

  /** `${roomCode}/${uuid}.${fileExt}`. */
  function StoragePath(roomCode: JsString, uuid: JsString, name: JsString): (r: JsString)
    ensures |r| == |roomCode| + |uuid| + 2 + |Extension(name)|
    ensures r[|roomCode|] == Slash() && r[|roomCode| + 1 + |uuid|] == Dot()
  {
    roomCode + [Slash()] + uuid + [Dot()] + Extension(name)
  }

  /** The extension is read from the end: any text followed by a '.' and a
      '.'-free part has that part as its extension. */
  lemma {:induction false} ExtensionAfterDot(prefix: JsString, ext: JsString)
    requires Dot() !in ext
    ensures Extension(prefix + [Dot()] + ext) == ext
    decreases |ext|
  {
    var s := prefix + [Dot()] + ext;
    if ext != [] {
      var init := ext[..|ext| - 1];
      assert s[..|s| - 1] == prefix + [Dot()] + init;
      assert s[|s| - 1] == ext[|ext| - 1];
      ExtensionAfterDot(prefix, init);
      assert ext == init + [ext[|ext| - 1]];
    }
  }

  /** The path is the room's folder, then the uuid. */
  lemma StoragePathLayout(roomCode: JsString, uuid: JsString, name: JsString)
    ensures var p := StoragePath(roomCode, uuid, name);
      StartsWith(p, roomCode + [Slash()]) && p[|roomCode| + 1..|roomCode| + 1 + |uuid|] == uuid &&
      p[|roomCode| + 1 + |uuid|] == Dot()
  {
    var head := roomCode + [Slash()] + uuid;
    var p := StoragePath(roomCode, uuid, name);
    assert p == head + ([Dot()] + Extension(name));
    assert p[..|roomCode| + 1] == roomCode + [Slash()];
    assert p[|roomCode| + 1..|roomCode| + 1 + |uuid|] == head[|roomCode| + 1..];
  }

  /** The path ends with the file's own extension: reading the extension of
      the path gives that of the name. */
  lemma StoragePathExtension(roomCode: JsString, uuid: JsString, name: JsString)
    ensures Extension(StoragePath(roomCode, uuid, name)) == Extension(name)
  {
    ExtensionSpec(name);
    ExtensionAfterDot(roomCode + [Slash()] + uuid, Extension(name));
  }

  lemma ExtensionExamples()
    ensures Extension(Units("a.b.png")) == Units("png")
    ensures Extension(Units("README")) == Units("README")
    ensures Extension(Units("archive.")) == []
  {
    ExtensionSpec(Units("README"));
    assert Dot() !in Units("README");
    ExtensionAfterDot(Units("a.b"), Units("png"));
    assert Units("a.b.png") == Units("a.b") + [Dot()] + Units("png");
  }
}
