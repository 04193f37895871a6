/** The action menu of one chat message: the reply preview, the guards of
    the reply and edit dialogs, the reaction list and which actions the
    author of the message alone is offered. */
module MessageActions {
  import opened JsText

  /** An entry of `REACTIONS`: its emoji and its `label`; the icon is a rendering detail. */
  datatype Reaction = Reaction(emoji: JsString, caption: JsString)

  function Heart(): Reaction { Reaction([0x2764, 0xFE0F], Units("حب")) }
  function ThumbsUp(): Reaction { Reaction([0xD83D, 0xDC4D], Units("إعجاب")) }
  function Laugh(): Reaction { Reaction([0xD83D, 0xDE02], Units("ضحك")) }
  function Sad(): Reaction { Reaction([0xD83D, 0xDE22], Units("حزن")) }
  function Angry(): Reaction { Reaction([0xD83D, 0xDE21], Units("غضب")) }
  function Star(): Reaction { Reaction([0x2B50], Units("نجمة")) }

  /** `REACTIONS`, in the order of the literal. */
  function Reactions(): (r: seq<Reaction>)
    ensures |r| == 6
  {
    [Heart(), ThumbsUp(), Laugh(), Sad(), Angry(), Star()]
  }

  /** `REACTIONS.slice(0, 3)`, the buttons shown beside the menu. */
  function QuickReactions(): (r: seq<Reaction>)
    ensures |r| == 3
  {
    Reactions()[..3]
  }

  /** The quick reactions are heart, thumbs-up and laughter, in that order,
      and the three others are offered only inside the menu. */
  lemma QuickReactionsContents()
    ensures QuickReactions() == [Heart(), ThumbsUp(), Laugh()]
    ensures forall q | q in QuickReactions() :: q in Reactions()
    ensures Sad() !in QuickReactions() && Angry() !in QuickReactions() && Star() !in QuickReactions()
  {
    assert Reactions()[..3] == [Heart(), ThumbsUp(), Laugh()];
  }

  /** The preview length and the marker appended to a cut preview. */
  const PreviewLimit: nat := 50
  function Ellipsis(): JsString { Units("...") }

  /** The preview `handleReply` passes on: the content itself up to 50
      units, otherwise its first 50 units followed by "...". */
  function Preview(content: JsString): (r: JsString)
    ensures |content| <= PreviewLimit ==> r == content
    ensures |content| > PreviewLimit ==> |r| == PreviewLimit + 3 && r[..PreviewLimit] == content[..PreviewLimit]
    ensures |content| > PreviewLimit ==> r[PreviewLimit..] == Ellipsis()
  {
    if |content| > PreviewLimit then content[..PreviewLimit] + Ellipsis() else content
  }

  /** A preview is at most 53 units and agrees with the content on its first
      `min(|content|, 50)` units. */
  lemma PreviewBounds(content: JsString)
    ensures |Preview(content)| <= PreviewLimit + 3
    ensures var n := if |content| < PreviewLimit then |content| else PreviewLimit;
      n <= |Preview(content)| && Preview(content)[..n] == content[..n]
  {
  }

  /** Taking the preview of a preview changes nothing. */
  lemma PreviewIdempotent(content: JsString)
    ensures Preview(Preview(content)) == Preview(content)
  {
    var p := Preview(content);
    if |content| > PreviewLimit {
      assert p[..PreviewLimit] == content[..PreviewLimit];
      assert p == p[..PreviewLimit] + p[PreviewLimit..];
    }
  }

  /** The items of the drop-down menu, in the order rendered. */
  datatype MenuItem = ReplyItem | EditItem | CopyItem | ReactionsItem | DeleteItem

  function MenuItems(isOwn: bool): (r: seq<MenuItem>)
    ensures 3 <= |r| && r[0] == ReplyItem
    ensures r[|r| - 1] == if isOwn then DeleteItem else ReactionsItem
  {
    [ReplyItem] + (if isOwn then [EditItem] else []) + [CopyItem, ReactionsItem] +
    (if isOwn then [DeleteItem] else [])
  }

  /** Edit and delete are offered exactly for the user's own messages, reply,
      copy and the reaction list to everyone. */
  lemma OwnGating(isOwn: bool)
    ensures EditItem in MenuItems(isOwn) <==> isOwn
    ensures DeleteItem in MenuItems(isOwn) <==> isOwn
    ensures ReplyItem in MenuItems(isOwn) && CopyItem in MenuItems(isOwn) && ReactionsItem in MenuItems(isOwn)
    ensures |MenuItems(isOwn)| == if isOwn then 5 else 3
  {
    if !isOwn {
      assert MenuItems(isOwn) == [ReplyItem, CopyItem, ReactionsItem];
    } else {
      assert MenuItems(isOwn) == [ReplyItem, EditItem, CopyItem, ReactionsItem, DeleteItem];
    }
  }

  /** A call of `onReply(messageId, content, preview)`. */
  datatype ReplyCall = ReplyCall(messageId: JsString, content: JsString, preview: JsString)
  /** A call of `onEdit(messageId, content)`. */
  datatype EditCall = EditCall(messageId: JsString, content: JsString)

  /** The component's props and state, with the callback calls made so far. */
  class ActionsState {
    const messageId: JsString
    const messageContent: JsString
    const isOwn: bool
    var replyText: JsString
    var editText: JsString
    var showReplyDialog: bool
    var showEditDialog: bool
    var replies: seq<ReplyCall>
    var edits: seq<EditCall>
    var reactions: seq<JsString>
    var deletions: seq<JsString>

    constructor (messageId: JsString, messageContent: JsString, isOwn: bool)
      ensures this.messageId == messageId && this.messageContent == messageContent && this.isOwn == isOwn
      ensures replyText == [] && editText == messageContent
      ensures !showReplyDialog && !showEditDialog
      ensures replies == [] && edits == [] && reactions == [] && deletions == []
    {
      this.messageId := messageId;
      this.messageContent := messageContent;
      this.isOwn := isOwn;
      replyText, editText := [], messageContent;
      showReplyDialog, showEditDialog := false, false;
      replies, edits, reactions, deletions := [], [], [], [];
    }

    /** `handleReply`: with some non-whitespace text, calls `onReply` with
        the untrimmed text and the preview, then clears the text and closes
        the dialog; a blank text changes nothing. */
    method HandleReply()
      modifies this
      ensures IsBlank(old(replyText)) ==>
                replies == old(replies) && replyText == old(replyText) && showReplyDialog == old(showReplyDialog)
      ensures !IsBlank(old(replyText)) ==>
                replies == old(replies) + [ReplyCall(messageId, old(replyText), Preview(messageContent))] &&
                replyText == [] && !showReplyDialog
      ensures edits == old(edits) && editText == old(editText) && showEditDialog == old(showEditDialog)
      ensures reactions == old(reactions) && deletions == old(deletions)
    {
      if Trim(replyText) != [] {
        var preview := if |messageContent| > PreviewLimit then messageContent[..PreviewLimit] + Ellipsis()
                       else messageContent;
        replies := replies + [ReplyCall(messageId, replyText, preview)];
        replyText := [];
        showReplyDialog := false;
      }
    }

    /** `handleEdit`: only a non-blank text different from the original
        reaches `onEdit` and closes the dialog. */
    method HandleEdit()
      modifies this
      ensures IsBlank(old(editText)) || old(editText) == messageContent ==>
                edits == old(edits) && showEditDialog == old(showEditDialog)
      ensures !IsBlank(old(editText)) && old(editText) != messageContent ==>
                edits == old(edits) + [EditCall(messageId, old(editText))] && !showEditDialog
      ensures editText == old(editText)
      ensures replies == old(replies) && replyText == old(replyText) && showReplyDialog == old(showReplyDialog)
      ensures reactions == old(reactions) && deletions == old(deletions)
    {
      if Trim(editText) != [] && editText != messageContent {
        edits := edits + [EditCall(messageId, editText)];
        showEditDialog := false;
      }
    }

    /** The `onChange` handlers of the two inputs. */
    method SetReplyText(text: JsString)
      modifies this
      ensures replyText == text
      ensures editText == old(editText) && showReplyDialog == old(showReplyDialog) && showEditDialog == old(showEditDialog)
      ensures replies == old(replies) && edits == old(edits) && reactions == old(reactions) && deletions == old(deletions)
    {
      replyText := text;
    }

    method SetEditText(text: JsString)
      modifies this
      ensures editText == text
      ensures replyText == old(replyText) && showReplyDialog == old(showReplyDialog) && showEditDialog == old(showEditDialog)
      ensures replies == old(replies) && edits == old(edits) && reactions == old(reactions) && deletions == old(deletions)
    {
      editText := text;
    }

    /** A click on reaction button `i`, among the quick ones or the menu's full list. */
    method React(quick: bool, i: nat)
      requires i < |if quick then QuickReactions() else Reactions()|
      modifies this
      ensures reactions == old(reactions) + [(if quick then QuickReactions() else Reactions())[i].emoji]
      ensures replies == old(replies) && edits == old(edits) && deletions == old(deletions)
      ensures replyText == old(replyText) && editText == old(editText)
      ensures showReplyDialog == old(showReplyDialog) && showEditDialog == old(showEditDialog)
    {
      var shown := if quick then QuickReactions() else Reactions();
      reactions := reactions + [shown[i].emoji];
    }

    /** A click on the delete item, which the menu renders for own messages only. */
    method Delete()
      requires DeleteItem in MenuItems(isOwn)
      modifies this
      ensures isOwn
      ensures deletions == old(deletions) + [messageId]
      ensures replies == old(replies) && edits == old(edits) && reactions == old(reactions)
      ensures replyText == old(replyText) && editText == old(editText)
      ensures showReplyDialog == old(showReplyDialog) && showEditDialog == old(showEditDialog)
    {
      OwnGating(isOwn);
      deletions := deletions + [messageId];
    }
  }
}
