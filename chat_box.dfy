/**
 * The chat widget's conversation: an append-only message log, the text
 * box, and the loading flag. A send is split at its await: BeginSend runs
 * the guard and appends the user's turn, then CompleteSend or FailSend
 * appends the model's turn and clears loading.
 */
module ChatBox {
  import opened Types
  import GeminiService

  const Greeting := "I'm your Excuse Assistant. Need a bulletproof reason for being late, or a polite way to bail on that dinner? Let's talk strategy."
  const ErrorReply := "My logic is getting tangled. Let's try that again."

  /** The characters JavaScript's `String.prototype.trim` strips: white space and line terminators. */
  predicate IsJsWhitespace(c: char) {
    c == '\t' || c == '\n' || c == '\U{000B}' || c == '\U{000C}' || c == '\r' || c == ' '
    || c == '\U{00A0}' || c == '\U{1680}' || ('\U{2000}' <= c <= '\U{200A}')
    || c == '\U{2028}' || c == '\U{2029}' || c == '\U{202F}' || c == '\U{205F}'
    || c == '\U{3000}' || c == '\U{FEFF}'
  }

  function TrimStart(s: string): string {
    if s != [] && IsJsWhitespace(s[0]) then TrimStart(s[1..]) else s
  }

  function TrimEnd(s: string): string {
    if s != [] && IsJsWhitespace(s[|s| - 1]) then TrimEnd(s[..|s| - 1]) else s
  }

  /** `s.trim()`. */
  function Trim(s: string): string {
    TrimEnd(TrimStart(s))
  }

  predicate AllWhitespace(s: string) {
    forall i :: 0 <= i < |s| ==> IsJsWhitespace(s[i])
  }

  /**
   * TrimStart drops exactly the leading white space: what it returns is a
   * suffix of `s`, everything before it is white space, and it is empty or
   * starts with a character that is not.
   */
  lemma {:induction false} TrimStartSpec(s: string)
    ensures |TrimStart(s)| <= |s| && TrimStart(s) == s[|s| - |TrimStart(s)|..]
    ensures AllWhitespace(s[..|s| - |TrimStart(s)|])
    ensures TrimStart(s) != [] ==> !IsJsWhitespace(TrimStart(s)[0])
  {
    if s != [] && IsJsWhitespace(s[0]) {
      TrimStartSpec(s[1..]);
      var k := |s| - |TrimStart(s)|;
      assert s[1..][|s| - 1 - |TrimStart(s)|..] == s[k..];
      forall i | 0 <= i < k ensures IsJsWhitespace(s[..k][i]) {
        if i > 0 { assert s[..k][i] == s[1..][..k - 1][i - 1]; }
      }
    }
  }

  /** TrimEnd leaves nothing exactly when there was only white space. */
  lemma {:induction false} TrimEndEmpty(s: string)
    ensures TrimEnd(s) == [] <==> AllWhitespace(s)
  {
    if s != [] && IsJsWhitespace(s[|s| - 1]) {
      var t := s[..|s| - 1];
      TrimEndEmpty(t);
      if AllWhitespace(t) {
        forall i | 0 <= i < |s| ensures IsJsWhitespace(s[i]) {
          if i < |s| - 1 { assert s[i] == t[i]; }
        }
      } else {
        var i :| 0 <= i < |t| && !IsJsWhitespace(t[i]);
        assert s[i] == t[i];
      }
    } else if s != [] {
      assert !IsJsWhitespace(s[|s| - 1]);
    }
  }

  /** A message is blank, and the send guard rejects it, exactly when it is all white space. */
  lemma TrimEmptyIffBlank(s: string)
    ensures Trim(s) == [] <==> AllWhitespace(s)
  {
    var t := TrimStart(s);
    TrimStartSpec(s);
    TrimEndEmpty(t);
    var k := |s| - |t|;
    if t != [] {
      // the first character kept is not white space, in s as in t
      assert t[0] == s[k];
    } else {
      assert s[..k] == s;
    }
  }

  /** Roles alternate model, user, model, ... from the greeting on. */
  predicate Alternating(m: seq<ChatMessage>) {
    forall i :: 0 <= i < |m| ==> m[i].role == (if i % 2 == 0 then Model else User)
  }

  class Conversation {
    var messages: seq<ChatMessage>
    var input: string
    var isLoading: bool

    /**
     * The conversation invariant: it starts with the model's turn, roles
     * alternate, and the last turn is the user's exactly while a reply is
     * awaited; so at rest it starts and ends with the model.
     */
    predicate Valid()
      reads this
    {
      && |messages| >= 1
      && Alternating(messages)
      && (isLoading <==> messages[|messages| - 1].role == User)
    }

    /** The widget opens with one model message holding the greeting, an empty box, idle. */
    constructor ()
      ensures Valid()
      ensures messages == [ChatMessage(Model, Greeting)]
      ensures input == "" && !isLoading
    {
      messages := [ChatMessage(Model, Greeting)];
      input := "";
      isLoading := false;
    }

    /** Typing into the box; allowed while a reply is awaited. */
    method SetInput(s: string)
      requires Valid()
      modifies this
      ensures Valid()
      ensures input == s
      ensures messages == old(messages) && isLoading == old(isLoading)
    {
      input := s;
    }

    /**
     * The first half of `handleSend`. A blank box or a pending reply
     * rejects the send and nothing changes. Otherwise the untrimmed text is
     * appended as the user's turn, the box is cleared, loading is set, and
     * the history sent to the model is the previous log plus that turn.
     */
    method BeginSend() returns (sent: Option<seq<ChatMessage>>)
      requires Valid()
      modifies this
      ensures Valid()
      ensures sent.Some? <==> !AllWhitespace(old(input)) && !old(isLoading)
      ensures sent.None? ==> messages == old(messages) && input == old(input) && isLoading == old(isLoading)
      ensures sent.Some? ==> messages == old(messages) + [ChatMessage(User, old(input))]
      ensures sent.Some? ==> sent.value == messages && input == "" && isLoading
    {
      TrimEmptyIffBlank(input);
      if Trim(input) == [] || isLoading {
        return None;
      }
      messages := messages + [ChatMessage(User, input)];
      input := "";
      isLoading := true;
      sent := Some(messages);
    }

    /** The model answered with `response`: one model turn with its text (or the fallback) is appended. */
    method CompleteSend(response: Option<string>)
      requires Valid() && isLoading
      modifies this
      ensures Valid() && !isLoading
      ensures messages == old(messages) + [ChatMessage(Model, GeminiService.ChatReply(response))]
      ensures input == old(input)
    {
      messages := messages + [ChatMessage(Model, GeminiService.ChatReply(response))];
      isLoading := false;
    }

    /** The call failed: one model turn with the fixed apology is appended. */
    method FailSend()
      requires Valid() && isLoading
      modifies this
      ensures Valid() && !isLoading
      ensures messages == old(messages) + [ChatMessage(Model, ErrorReply)]
      ensures input == old(input)
    {
      messages := messages + [ChatMessage(Model, ErrorReply)];
      isLoading := false;
    }
  }
}
