/** The text field under the transcript: it sends the trimmed text, refuses
    blank text and text typed while a reply is pending, and clears itself
    after a send. */
module ChatInput {
  import opened Wrappers
  import opened Text

  class InputBox {
    /** The text in the field. */
    var message: string

    constructor()
      ensures message == ""
    {
      message := "";
    }

    /** The field's change handler. */
    method Edit(text: string)
      modifies this
      ensures message == text
    {
      message := text;
    }

    /** The send button is disabled exactly when the text is blank or a
        reply is pending. */
    predicate SendDisabled(isProcessing: bool)
      reads this
      ensures SendDisabled(isProcessing) <==> Blank(message) || isProcessing
    {
      TrimEmptyIffBlank(message);
      Trim(message) == [] || isProcessing
    }

    /** `handleSend`: the text handed to `onSendMessage`, if any. A send
        happens exactly when the button would be enabled; what is sent is
        the trimmed text, which is non-empty and has no surrounding
        whitespace, and the field is then cleared. A refused send leaves the
        field as it was. */
    method HandleSend(isProcessing: bool) returns (sent: Option<string>)
      modifies this
      ensures sent.Some? <==> !old(SendDisabled(isProcessing))
      ensures sent.Some? ==> sent.value == Trim(old(message)) && message == ""
      ensures sent.Some? ==> sent.value != [] && Trim(sent.value) == sent.value
      ensures sent.None? ==> message == old(message)
    {
      var text := Trim(message);
      if text != [] && !isProcessing {
        TrimIdempotent(message);
        sent := Some(text);
        message := "";
      } else {
        sent := None;
      }
    }

    /** `handleKeyDown`: Enter without Shift sends as the button does; any
        other key sends nothing and leaves the field alone. */
    method HandleKeyDown(key: string, shiftKey: bool, isProcessing: bool) returns (sent: Option<string>)
      modifies this
      ensures key == "Enter" && !shiftKey ==>
                (sent.Some? <==> !old(SendDisabled(isProcessing)))
                && (sent.Some? ==> sent.value == Trim(old(message)) && message == "")
                && (sent.None? ==> message == old(message))
      ensures !(key == "Enter" && !shiftKey) ==> sent.None? && message == old(message)
    {
      if key == "Enter" && !shiftKey {
        sent := HandleSend(isProcessing);
      } else {
        sent := None;
      }
    }
  }
}
