/**
 * The conversation excerpt embedded in the full crew's task descriptions: a header and
 * one `role: content` line for each of the last five history messages.
 */
module Context {
  import opened Wrappers

  /** A history message as a dictionary: either key may be missing. */
  datatype Message = Message(role: Option<string>, content: Option<string>)

  const Title := "Previous conversation:"

  /** Two blank-line breaks, the title, a line break. */
  const Header := "\n\n" + Title + "\n"

  /** How many of the most recent messages the excerpt shows. */
  const Window := 5

  /** Python's `s[-n:]` for `n > 0`: the last `n` elements, or all of them when fewer. */
  function Recent<T>(s: seq<T>, n: nat): (r: seq<T>)
    requires n > 0
    ensures |r| == if |s| <= n then |s| else n
    ensures r == s[|s| - |r|..]
  {
    if |s| <= n then s else s[|s| - n..]
  }

  /** One excerpt line; a missing role reads as `user`, missing content as empty. */
  function Line(m: Message): string {
    m.role.GetOr("user") + ": " + m.content.GetOr("") + "\n"
  }

  /** Missing dictionary keys read as the defaults: role `user`, empty content. */
  lemma LineDefaults(m: Message)
    ensures m.role.None? ==> "user: " <= Line(m)
    ensures m.content.None? ==> Line(m) == m.role.GetOr("user") + ": \n"
  {
  }

  /** The lines of `ms`, in order. */
  function Lines(ms: seq<Message>): string {
    if ms == [] then "" else Lines(ms[..|ms| - 1]) + Line(ms[|ms| - 1])
  }

  /** The excerpt: empty for an absent or empty history, otherwise the header and one
      line per recent message. */
  function ExcerptOf(history: Option<seq<Message>>): string {
    if history.None? || history.value == [] then "" else Header + Lines(Recent(history.value, Window))
  }

  /** The excerpt builder, appending one line per recent message in order. */
  method BuildContext(history: Option<seq<Message>>) returns (context: string)
    ensures context == ExcerptOf(history)
    ensures context == "" <==> history.None? || history.value == []
  {
    context := "";
    if history.Some? && history.value != [] {
      context := Header;
      var recent := Recent(history.value, Window);
      var i := 0;
      while i < |recent|
        invariant 0 <= i <= |recent|
        invariant context == Header + Lines(recent[..i])
      {
        assert recent[..i + 1][..i] == recent[..i];
        context := context + Line(recent[i]);
        i := i + 1;
      }
      assert recent[..|recent|] == recent;
    }
  }

  function Count(s: string, c: char): nat {
    if s == [] then 0 else (if s[0] == c then 1 else 0) + Count(s[1..], c)
  }

  lemma {:induction false} CountConcat(a: string, b: string, c: char)
    ensures Count(a + b, c) == Count(a, c) + Count(b, c)
  {
    if a == [] {
      assert a + b == b;
    } else {
      assert (a + b)[1..] == a[1..] + b;
      CountConcat(a[1..], b, c);
    }
  }

  /** Neither the role nor the content of `m` spans several lines. */
  predicate SingleLine(m: Message) {
    && (m.role.Some? ==> Count(m.role.value, '\n') == 0)
    && (m.content.Some? ==> Count(m.content.value, '\n') == 0)
  }

  lemma LineHasOneNewline(m: Message)
    requires SingleLine(m)
    ensures Count(Line(m), '\n') == 1
  {
    var role, content := m.role.GetOr("user"), m.content.GetOr("");
    assert Count(role, '\n') == 0 && Count(content, '\n') == 0;
    CountConcat(role, ": ", '\n');
    CountConcat(role + ": ", content, '\n');
    CountConcat(role + ": " + content, "\n", '\n');
  }

  lemma {:induction false} LinesCount(ms: seq<Message>)
    requires forall i :: 0 <= i < |ms| ==> SingleLine(ms[i])
    ensures Count(Lines(ms), '\n') == |ms|
  {
    if ms != [] {
      LinesCount(ms[..|ms| - 1]);
      LineHasOneNewline(ms[|ms| - 1]);
      CountConcat(Lines(ms[..|ms| - 1]), Line(ms[|ms| - 1]), '\n');
    }
  }

  lemma {:induction false} NoNewlineCount(s: string)
    requires forall i :: 0 <= i < |s| ==> s[i] != '\n'
    ensures Count(s, '\n') == 0
  {
    if s != [] {
      NoNewlineCount(s[1..]);
    }
  }

  lemma HeaderCount()
    ensures Count(Header, '\n') == 3
  {
    assert forall i :: 0 <= i < |Title| ==> Title[i] != '\n';
    NoNewlineCount(Title);
    CountConcat("\n\n", Title, '\n');
    CountConcat("\n\n" + Title, "\n", '\n');
  }

  /** With single-line messages, the excerpt holds the header's three line breaks and
      exactly one more per message shown, at most five. */
  lemma ExcerptLineCount(history: seq<Message>)
    requires history != []
    requires forall i :: 0 <= i < |history| ==> SingleLine(history[i])
    ensures Count(Header + Lines(Recent(history, Window)), '\n')
      == 3 + (if |history| <= Window then |history| else Window)
  {
    var recent := Recent(history, Window);
    forall i | 0 <= i < |recent|
      ensures SingleLine(recent[i])
    {
      assert recent[i] == history[|history| - |recent| + i];
    }
    LinesCount(recent);
    CountConcat(Header, Lines(recent), '\n');
    HeaderCount();
  }
}
