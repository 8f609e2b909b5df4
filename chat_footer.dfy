/**
 * The message composer below an open chat: validation of a submit, the
 * heart shortcut, emoji insertion and the attached image.
 */
module ChatFooter {
  import opened Options
  import opened Entities
  import opened Text
  import ChatReducer

  /** The content the heart shortcut sends: U+2764 followed by the emoji variation selector. */
  const Heart: string := "\U{2764}\U{FE0F}"

  /** hasContent: the trimmed text is non-empty or an image is attached. */
  predicate HasContent(text: string, image: Option<string>) {
    Trim(text) != "" || Present(image)
  }

  /** The composer has content exactly when its text is not all whitespace or an image is attached. */
  lemma HasContentIffNotBlank(text: string, image: Option<string>)
    ensures HasContent(text, image) <==> !IsBlank(text) || Present(image)
  {
    TrimEmptyIffBlank(text);
  }

  datatype ComposeError = NoChatSelected | EmptyMessage

  datatype SubmitOutcome = Rejected(error: ComposeError) | Sent(payload: ChatReducer.SendPayload)

  /**
   * onSubmit's decision: no chat is reported first, then an empty message;
   * otherwise the untrimmed text, the image if any and the reply are sent.
   */
  function Decide(chatId: Option<string>, text: string, image: Option<string>, replyTo: Option<Message>): (o: SubmitOutcome)
    ensures o == Rejected(NoChatSelected) <==> !Present(chatId)
    ensures o == Rejected(EmptyMessage) <==> Present(chatId) && !HasContent(text, image)
    ensures o.Sent? <==> Present(chatId) && HasContent(text, image)
    ensures o.Sent? ==> o.payload == ChatReducer.SendPayload(chatId.value, Some(text), OrNull(image), replyTo)
  {
    if !Present(chatId) then Rejected(NoChatSelected)
    else if !HasContent(text, image) then Rejected(EmptyMessage)
    else Sent(ChatReducer.SendPayload(chatId.value, Some(text), OrNull(image), replyTo))
  }

  /** A submitted message always passes the store's own send guard for a signed-in user. */
  lemma SubmittedPassesSendGuard(chatId: Option<string>, text: string, image: Option<string>,
                                 replyTo: Option<Message>, user: User)
    requires user.id != ""
    requires Decide(chatId, text, image, replyTo).Sent?
    ensures ChatReducer.CanSend(Decide(chatId, text, image, replyTo).payload, Some(user))
  {
  }

  /** The heart shortcut skips the emptiness check, but its content is never blank. */
  lemma HeartIsContent()
    ensures HasContent(Heart, None)
  {
    assert Heart[0] == '\U{2764}';
    assert !IsWhitespace(Heart[0]);
    assert !IsBlank(Heart);
    TrimEmptyIffBlank(Heart);
  }

  /** A file chosen in the image picker: its MIME type and its contents as a data URL. */
  datatype ImageFile = ImageFile(mimeType: string, dataUrl: string)

  predicate IsImageType(mimeType: string) {
    |mimeType| >= 6 && mimeType[..6] == "image/"
  }

  /** The composer's own state: the text field, the attached image and the message being replied to. */
  class Composer {
    var text: string
    var image: Option<string>
    var replyTo: Option<Message>

    constructor ()
      ensures text == "" && image.None? && replyTo.None?
    {
      text := "";
      image := None;
      replyTo := None;
    }

    /** The Send button is shown exactly when there is content; otherwise the heart button is. */
    function ShowsSendButton(): (b: bool)
      reads this
      ensures b <==> !IsBlank(text) || Present(image)
    {
      HasContentIffNotBlank(text, image);
      HasContent(text, image)
    }

    /** handleEmojiSelect: the emoji goes at the end of the current text. */
    method SelectEmoji(emoji: string)
      modifies this
      ensures text == old(text) + emoji && image == old(image) && replyTo == old(replyTo)
    {
      text := text + emoji;
    }

    /** handleImageChange: only an image file replaces the attachment. */
    method ChooseFile(file: Option<ImageFile>)
      modifies this
      ensures file.Some? && IsImageType(file.value.mimeType) ==> image == Some(file.value.dataUrl)
      ensures !(file.Some? && IsImageType(file.value.mimeType)) ==> image == old(image)
      ensures text == old(text) && replyTo == old(replyTo)
    {
      if file.Some? && IsImageType(file.value.mimeType) {
        image := Some(file.value.dataUrl);
      }
    }

    /** handleRemoveImage */
    method RemoveImage()
      modifies this
      ensures image.None? && text == old(text) && replyTo == old(replyTo)
    {
      image := None;
    }

    /** Starts replying to a message (the parent's reply state). */
    method ReplyTo(m: Message)
      modifies this
      ensures replyTo == Some(m) && text == old(text) && image == old(image)
    {
      replyTo := Some(m);
    }

    /**
     * onSubmit: a rejected submit changes nothing; a sent one clears the reply,
     * removes the image and resets the text.
     */
    method Submit(chatId: Option<string>) returns (o: SubmitOutcome)
      modifies this
      ensures o == Decide(chatId, old(text), old(image), old(replyTo))
      ensures o.Sent? ==> text == "" && image.None? && replyTo.None?
      ensures o.Rejected? ==> text == old(text) && image == old(image) && replyTo == old(replyTo)
    {
      if !Present(chatId) {
        return Rejected(NoChatSelected);
      }
      if Trim(text) == "" && !Present(image) {
        return Rejected(EmptyMessage);
      }
      o := Sent(ChatReducer.SendPayload(chatId.value, Some(text), OrNull(image), replyTo));
      replyTo := None;
      RemoveImage();
      text := "";
    }

    /** handleHeartLike: sends a heart with the current reply when a chat is selected; the composer is left as it is. */
    method HeartLike(chatId: Option<string>) returns (p: Option<ChatReducer.SendPayload>)
      ensures p.Some? <==> Present(chatId)
      ensures p.Some? ==> p.value == ChatReducer.SendPayload(chatId.value, Some(Heart), None, replyTo)
    {
      if Present(chatId) {
        p := Some(ChatReducer.SendPayload(chatId.value, Some(Heart), None, replyTo));
      } else {
        p := None;
      }
    }
  }
}
