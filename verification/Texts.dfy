/** The two ways the gateway finds the text of a request. */
module Texts {
  import opened GatewayModel

  /** The cache walks the messages from the back. */
  method CacheText(messages: seq<Message>) returns (text: string)
    ensures text == LastUserText(messages)
  {
    var i := |messages|;
    assert messages[..i] == messages;
    while i > 0
      invariant 0 <= i <= |messages|
      invariant LastUserText(messages) == LastUserText(messages[..i])
    {
      i := i - 1;
      if messages[i].role == "user" && messages[i].content != "" {
        return messages[i].content;
      }
      assert messages[..i + 1][..i] == messages[..i];
    }
    return "";
  }

  /** The semantic router collects all user texts and takes the last one. */
  method RouterText(messages: seq<Message>) returns (text: string)
    ensures text == LastUserText(messages)
  {
    var parts: seq<string> := [];
    for i := 0 to |messages|
      invariant LastUserText(messages[..i]) == if |parts| > 0 then parts[|parts| - 1] else ""
    {
      assert messages[..i + 1][..i] == messages[..i];
      var m := messages[i];
      if m.role == "user" && m.content != "" {
        parts := parts + [m.content];
      }
    }
    assert messages[..|messages|] == messages;
    if |parts| > 0 {
      return parts[|parts| - 1];
    }
    return "";
  }

  /** The text found is the last non-empty user message: nothing after it qualifies. */
  lemma {:induction false} LastUserTextIsLast(messages: seq<Message>, i: nat)
    requires i < |messages| && messages[i].role == "user" && messages[i].content != ""
    requires forall j :: i < j < |messages| ==> messages[j].role != "user" || messages[j].content == ""
    ensures LastUserText(messages) == messages[i].content
  {
    if i < |messages| - 1 {
      LastUserTextIsLast(messages[..|messages| - 1], i);
    }
  }

  lemma {:induction false} LastUserTextEmpty(messages: seq<Message>)
    ensures LastUserText(messages) == "" <==>
            forall j :: 0 <= j < |messages| ==> messages[j].role != "user" || messages[j].content == ""
  {
    if |messages| > 0 {
      var init, last := messages[..|messages| - 1], messages[|messages| - 1];
      LastUserTextEmpty(init);
      assert forall j :: 0 <= j < |init| ==> init[j] == messages[j];
    }
  }
}
