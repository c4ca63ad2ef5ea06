/** The chat window: the message format, the "who is typing" line, the
    bounded message history, and the input field's send and toggle rules. */
module ChatUi {
  import opened Wrappers
  import opened Strings

  /** How many messages the chat list keeps. */
  const MessagesShown := 12

  // ----- Message format -------------------------------------------------

  /** The rich text of a chat line: the author in bold, a coloured colon, the message. */
  function FormatMessage(author: string, message: string): (r: string)
    ensures Utf16Length(r) == RawMessageLength(author, message) + 30
    ensures |r| == |author| + |message| + 32
    ensures r[3..3 + |author|] == author
    ensures r[|r| - |message|..] == message
  {
    var r := "<b>" + author + "<color=#ff7f50>:</color></b> " + message;
    MarkupLength(author, "<color=#ff7f50>:</color></b> ", message);
    r
  }

  /** The UTF-16 length of the markup around author and message. */
  lemma MarkupLength(author: string, markup: string, message: string)
    requires markup == "<color=#ff7f50>:</color></b> "
    ensures Utf16Length("<b>" + author + markup + message)
         == Utf16Length(author) + Utf16Length(message) + 32
  {
    assert InBmp("<b>") && InBmp(markup);
    Utf16LengthAppend("<b>", author);
    Utf16LengthAppend("<b>" + author, markup);
    Utf16LengthAppend("<b>" + author + markup, message);
  }

  /** The length of a chat line without its markup: author, ": ", message,
      counted in UTF-16 code units as String.Length counts. */
  function RawMessageLength(author: string, message: string): (n: nat)
    ensures n == Utf16Length(author + ": " + message)
    ensures InBmp(author) && InBmp(message) ==> n == |author| + 2 + |message|
  {
    assert InBmp(": ");
    Utf16LengthAppend(author, ": ");
    Utf16LengthAppend(author + ": ", message);
    Utf16Length(author) + Utf16Length(": ") + Utf16Length(message)
  }

  /** No markup tag can start inside s. */
  predicate NoMarkup(s: string)
  {
    forall k | 0 <= k < |s| :: s[k] != '<'
  }

  /** No markup tag can end inside s. */
  predicate NoTagEnd(s: string)
  {
    forall k | 0 <= k < |s| :: s[k] != '>'
  }

  /** The text a rich-text label shows for s: every tag, from '<' to the
      next '>', is dropped, all other characters are shown. */
  function Displayed(s: string): (r: string)
    decreases |s|
  {
    if s == [] then []
    else if s[0] == '<' then Displayed(AfterTag(s[1..]))
    else [s[0]] + Displayed(s[1..])
  }

  /** What follows the first '>' of s (nothing if there is none). */
  function AfterTag(s: string): (r: string)
    ensures |r| <= |s|
  {
    if s == [] then []
    else if s[0] == '>' then s[1..]
    else AfterTag(s[1..])
  }

  lemma {:induction false} AfterTagOf(body: string, rest: string)
    requires NoTagEnd(body)
    ensures AfterTag(body + ">" + rest) == rest
    decreases |body|
  {
    if body == [] {
      assert body + ">" + rest == ">" + rest;
    } else {
      assert (body + ">" + rest)[1..] == body[1..] + ">" + rest;
      AfterTagOf(body[1..], rest);
    }
  }

  /** A whole tag shows nothing. */
  lemma DisplayedTag(body: string, rest: string)
    requires NoTagEnd(body)
    ensures Displayed("<" + body + ">" + rest) == Displayed(rest)
  {
    var s := "<" + body + ">" + rest;
    assert s[1..] == body + ">" + rest;
    AfterTagOf(body, rest);
  }

  /** Text without markup is shown as it is. */
  lemma {:induction false} DisplayedPlain(p: string, rest: string)
    requires NoMarkup(p)
    ensures Displayed(p + rest) == p + Displayed(rest)
    decreases |p|
  {
    if p == [] {
      assert p + rest == rest;
    } else {
      assert (p + rest)[0] == p[0];
      assert (p + rest)[1..] == p[1..] + rest;
      DisplayedPlain(p[1..], rest);
      assert p == [p[0]] + p[1..];
    }
  }

  /** A tag written as "<" + body + ">" in front of rest shows nothing. */
  lemma DisplayedTagLiteral(tag: string, body: string, rest: string)
    requires tag == "<" + body + ">" && NoTagEnd(body)
    ensures Displayed(tag + rest) == Displayed(rest)
  {
    assert tag + rest == "<" + body + ">" + rest;
    DisplayedTag(body, rest);
  }

  lemma MarkupAfterAuthor(message: string)
    ensures "<color=#ff7f50>:</color></b> " + message
         == "<color=#ff7f50>" + (":" + ("</color>" + ("</b>" + (" " + message))))
  {
    assert "<color=#ff7f50>:</color></b> " == "<color=#ff7f50>" + ":" + "</color>" + "</b>" + " ";
  }

  /** The markup after the author shows as ": ". */
  lemma DisplayedAfterAuthor(message: string)
    requires NoMarkup(message)
    ensures Displayed("<color=#ff7f50>:</color></b> " + message) == ": " + message
  {
    var d1 := " " + message;
    assert Displayed(d1) == d1 by {
      DisplayedPlain(message, []);
      assert message + [] == message;
      DisplayedPlain(" ", message);
    }
    var d2 := "</b>" + d1;
    assert Displayed(d2) == d1 by {
      DisplayedTagLiteral("</b>", "/b", d1);
    }
    var d3 := "</color>" + d2;
    assert Displayed(d3) == d1 by {
      DisplayedTagLiteral("</color>", "/color", d2);
    }
    var d4 := ":" + d3;
    assert Displayed(d4) == ":" + d1 by {
      DisplayedPlain(":", d3);
    }
    assert Displayed("<color=#ff7f50>" + d4) == ":" + d1 by {
      DisplayedTagLiteral("<color=#ff7f50>", "color=#ff7f50", d4);
    }
    MarkupAfterAuthor(message);
    assert ":" + d1 == ": " + message;
  }

  /** A formatted line shows exactly "author: message", whose length is
      RawMessageLength, as long as neither part holds markup of its own. */
  lemma FormatShowsRawMessage(author: string, message: string)
    requires NoMarkup(author) && NoMarkup(message)
    ensures Displayed(FormatMessage(author, message)) == author + ": " + message
    ensures Utf16Length(Displayed(FormatMessage(author, message))) == RawMessageLength(author, message)
  {
    var markup := "<color=#ff7f50>:</color></b> ";
    Regroup4("<b>", author, markup, message);
    DisplayedLine(author, markup + message, message);
  }

  lemma Regroup4(a: string, b: string, c: string, d: string)
    ensures a + b + c + d == a + (b + (c + d))
  {
  }

  lemma DisplayedLine(author: string, tail: string, message: string)
    requires NoMarkup(author) && NoMarkup(message)
    requires tail == "<color=#ff7f50>:</color></b> " + message
    ensures Displayed("<b>" + (author + tail)) == author + ": " + message
  {
    DisplayedAfterAuthor(message);
    DisplayedPlain(author, tail);
    DisplayedTagLiteral("<b>", "b", author + tail);
    assert author + (": " + message) == author + ": " + message;
  }

  // ----- Who is typing ---------------------------------------------------

  function Min(a: int, b: int): (m: int)
    ensures m <= a && m <= b && (m == a || m == b)
  {
    if a < b then a else b
  }

  /** s ends with x. */
  predicate EndsWith(s: string, x: string)
  {
    |x| <= |s| && s[|s| - |x|..] == x
  }

  /** The verb of the typing line: singular for one player other than the local one. */
  const IsTyping := " is typing..."
  const AreTyping := " are typing..."

  /** The typing line, case by case: one name, two or three names, or the
      first three names and " and others". The local player is listed as "You". */
  function TypingLine(players: seq<string>): (line: string)
    requires players != []
  {
    if |players| == 1 then
      players[0] + (if players[0] == "You" then AreTyping else IsTyping)
    else if |players| <= 3 then
      Join(", ", players) + AreTyping
    else
      Join(", ", players[..3]) + " and others" + AreTyping
  }

  /** The line starts with the first min(n, 3) names, in order, joined by ", ". */
  lemma TypingLineStartsWithNames(players: seq<string>)
    requires players != []
    ensures var names := Join(", ", players[..Min(|players|, 3)]);
            |names| <= |TypingLine(players)| && TypingLine(players)[..|names|] == names
  {
    var names := Join(", ", players[..Min(|players|, 3)]);
    if |players| <= 3 {
      assert players[..Min(|players|, 3)] == players;
    }
    if |players| == 1 {
      assert names == players[0];
    }
  }

  lemma NotEndingWithIsTyping(p: string)
    ensures !EndsWith(p + AreTyping, IsTyping)
  {
    var s := p + AreTyping;
    assert s[|s| - |IsTyping|] == 'a';
  }

  /** The verb is singular exactly when one player, not the local one, is typing. */
  lemma TypingLineSingular(players: seq<string>)
    requires players != []
    ensures EndsWith(TypingLine(players), IsTyping) <==> |players| == 1 && players[0] != "You"
    ensures !EndsWith(TypingLine(players), IsTyping) ==> EndsWith(TypingLine(players), AreTyping)
  {
    var line := TypingLine(players);
    if |players| == 1 && players[0] != "You" {
      assert line[|line| - |IsTyping|..] == IsTyping;
    } else {
      var p := line[..|line| - |AreTyping|];
      assert line == p + AreTyping;
      NotEndingWithIsTyping(p);
    }
  }

  /** With at most three players every name is shown and no " and others". */
  lemma TypingLineFewPlayers(players: seq<string>)
    requires 1 < |players| <= 3
    ensures TypingLine(players) == Join(", ", players) + AreTyping
    ensures |TypingLine(players)| == TotalLength(players) + 2 * (|players| - 1) + |AreTyping|
  {
    JoinLength(", ", players);
  }

  // ----- Message history -------------------------------------------------

  /** Drops the oldest line of a history that has grown past MessagesShown lines. */
  function Capped(history: seq<string>): (r: seq<string>)
    ensures |history| - 1 <= |r| <= |history| && r == history[|history| - |r|..]
    ensures |r| < |history| <==> |history| > MessagesShown
  {
    if |history| > MessagesShown then history[1..] else history
  }

  /** The history after receiving the lines of incoming, one after another. */
  function Received(history: seq<string>, incoming: seq<string>): (r: seq<string>)
    decreases |incoming|
  {
    if incoming == [] then history
    else Received(Capped(history + [incoming[0]]), incoming[1..])
  }

  /** The newest MessagesShown lines of s (all of s if there are fewer). */
  function Newest(s: seq<string>): (r: seq<string>)
    ensures |r| <= MessagesShown
  {
    if |s| <= MessagesShown then s else s[|s| - MessagesShown..]
  }

  lemma NewestOfNewest(a: seq<string>, b: seq<string>)
    ensures Newest(Newest(a) + b) == Newest(a + b)
  {
    if |a| > MessagesShown {
      var n := Newest(a);
      var k := |a| - MessagesShown;
      assert a + b == a[..k] + (n + b);
      assert (a + b)[|a + b| - Min(|a + b|, MessagesShown)..] == (n + b)[|n + b| - Min(|n + b|, MessagesShown)..];
    }
  }

  /** Starting from a history within bounds, the history always holds the
      newest MessagesShown lines ever received, oldest first. */
  lemma {:induction false} ReceivedKeepsNewest(history: seq<string>, incoming: seq<string>)
    requires |history| <= MessagesShown
    ensures Received(history, incoming) == Newest(history + incoming)
    ensures |Received(history, incoming)| <= MessagesShown
    decreases |incoming|
  {
    if incoming == [] {
      assert history + incoming == history;
    } else {
      var h := history + [incoming[0]];
      assert Capped(h) == Newest(h);
      ReceivedKeepsNewest(Capped(h), incoming[1..]);
      NewestOfNewest(h, incoming[1..]);
      assert h + incoming[1..] == history + incoming;
    }
  }

  // ----- Sending ---------------------------------------------------------

  /** What the lobby is asked to send for the text typed into the field:
      the text without its surrounding white space, and nothing at all when
      there is no lobby or the text is blank. */
  function Outgoing(message: string, inLobby: bool): (sent: Option<string>)
    ensures sent.Some? <==> inLobby && !AllWhiteSpace(message)
    ensures sent.Some? ==> sent.value == Trim(message) && sent.value != "" && Unpadded(sent.value)
  {
    var trimmed := Trim(message);
    if trimmed != "" && inLobby then Some(trimmed) else None
  }

  /** Sending "  hello  " sends "hello". */
  lemma SendTrimsExample()
    ensures Outgoing("  hello  ", true) == Some("hello")
  {
    assert "  hello  " == "  " + "hello" + "  ";
    TrimOfPadded("  ", "hello", "  ");
  }

  // ----- The chat window -------------------------------------------------

  class Chat {
    /** Whether chat is shown. */
    var shown: bool
    /** The text in the input field and whether the field is visible. */
    var fieldText: string
    var fieldActive: bool
    /** The typing line and whether its background is visible. */
    var typingText: string
    var typingBgActive: bool
    /** The formatted lines of the chat list, oldest first. */
    var messages: seq<string>

    ghost predicate Valid()
      reads this
    {
      |messages| <= MessagesShown
    }

    /** A new chat: hidden, with an empty, hidden input field and no messages. */
    constructor ()
      ensures Valid()
      ensures !shown && fieldText == "" && !fieldActive
      ensures typingText == "" && typingBgActive && messages == []
    {
      shown := false;
      fieldText := "";
      fieldActive := false;
      typingText := "";
      typingBgActive := true;
      messages := [];
    }

    /** Shows who is typing; players lists their names in order, "You" for
        the local player. With nobody typing only the background is hidden. */
    method UpdateTyping(players: seq<string>)
      modifies this
      ensures typingBgActive == (|players| > 0)
      ensures players == [] ==> typingText == old(typingText)
      ensures players != [] ==> typingText == TypingLine(players)
      ensures players != [] ==> (typingText ==
        Join(", ", players[..Min(|players|, 3)])
        + (if |players| > 3 then " and others" else "")
        + (if |players| == 1 && players[0] != "You" then IsTyping else AreTyping))
      ensures shown == old(shown) && fieldText == old(fieldText) && fieldActive == old(fieldActive)
      ensures messages == old(messages)
    {
      typingBgActive := |players| > 0;
      if |players| == 0 {
        return;
      }
      typingText := Join(", ", players[..Min(|players|, 3)]);
      if |players| > 3 {
        typingText := typingText + " and others";
      }
      if |players| > 0 {
        typingText := typingText + if players[0] != "You" && |players| == 1 then IsTyping else AreTyping;
      }
      if |players| <= 3 {
        assert players[..Min(|players|, 3)] == players;
      }
    }

    /** Shows or hides chat, unless the player is typing into the focused
        field. Returns the value passed to the movement toggle (movement is
        enabled while chat is hidden) and whether focus is requested. */
    method Toggle(focused: bool) returns (movement: Option<bool>, activate: bool)
      modifies this
      ensures old(fieldText) != "" && focused ==>
        shown == old(shown) && fieldActive == old(fieldActive) && movement == None && !activate
      ensures !(old(fieldText) != "" && focused) ==>
        shown == !old(shown) && fieldActive == shown && movement == Some(!shown) && activate == shown
      ensures fieldText == old(fieldText) && typingText == old(typingText)
      ensures typingBgActive == old(typingBgActive) && messages == old(messages)
    {
      if fieldText != "" && focused {
        return None, false;
      }
      shown := !shown;
      fieldActive := shown;
      movement := Some(!shown);
      activate := shown;
    }

    /** Sends the trimmed message to the lobby when Outgoing says so and
        returns what was sent. Either way the field is cleared and hidden. */
    method SendChatMessage(message: string, inLobby: bool) returns (sent: Option<string>)
      modifies this
      ensures sent == Outgoing(message, inLobby)
      ensures fieldText == "" && !fieldActive
      ensures shown == old(shown) && typingText == old(typingText)
      ensures typingBgActive == old(typingBgActive) && messages == old(messages)
    {
      sent := Outgoing(message, inLobby);
      fieldText := "";
      fieldActive := false;
    }

    /** Writes a message to the chat list as its newest line and drops the
        oldest line when the list grows past MessagesShown. */
    method ReceiveChatMessage(author: string, message: string)
      requires Valid()
      modifies this
      ensures Valid()
      ensures messages == Received(old(messages), [FormatMessage(author, message)])
      ensures messages == Newest(old(messages) + [FormatMessage(author, message)])
      ensures shown == old(shown) && fieldText == old(fieldText) && fieldActive == old(fieldActive)
      ensures typingText == old(typingText) && typingBgActive == old(typingBgActive)
    {
      ghost var before := messages;
      messages := messages + [FormatMessage(author, message)];
      if |messages| > MessagesShown {
        messages := messages[1..];
      }
      ReceivedKeepsNewest(before, [FormatMessage(author, message)]);
    }
  }
}
