/**
 * reescrever_chatgpt in main.py: ask the chat service to punctuate and
 * paragraph the raw transcript; on any failure, build the document locally
 * as a title line, a blank line and the raw text.
 *
 * The service is one ChatReply per call. The prompt wording only advises
 * the service and has no checkable effect, so it is not modelled.
 */
module Rewrite {
  import opened Wrappers

  /** What the chat completion call comes to. */
  datatype ChatReply =
    | Reply(content: Option<string>)  // choices[0].message.content, which the API may leave as None
    | ChatError(reason: string)       // the call raised (network, service error, no choices)

  // ---------------------------------------------------------------------
  // str.strip()
  // ---------------------------------------------------------------------

  /** str.isspace on one character: the characters Python's strip() removes. */
  predicate IsSpace(c: char)
  {
    var n := c as int;
    9 <= n <= 13 || 28 <= n <= 32 || n == 0x85 || n == 0xA0 || n == 0x1680 ||
    0x2000 <= n <= 0x200A || n == 0x2028 || n == 0x2029 || n == 0x202F ||
    n == 0x205F || n == 0x3000
  }

  /** The number of white-space characters s starts with. */
  function LeadingSpace(s: string): (n: nat)
    ensures n <= |s|
    ensures forall k :: 0 <= k < n ==> IsSpace(s[k])
    ensures n == |s| || !IsSpace(s[n])
  {
    if s != [] && IsSpace(s[0]) then
      var n := LeadingSpace(s[1..]);
      assert forall k :: 1 <= k < n + 1 ==> s[k] == s[1..][k - 1];
      n + 1
    else 0
  }

  /** The number of white-space characters s ends with. */
  function TrailingSpace(s: string): (n: nat)
    ensures n <= |s|
    ensures forall k :: |s| - n <= k < |s| ==> IsSpace(s[k])
    ensures n == |s| || !IsSpace(s[|s| - n - 1])
  {
    if s != [] && IsSpace(s[|s| - 1]) then
      var n := TrailingSpace(s[..|s| - 1]);
      assert forall k :: |s| - 1 - n <= k < |s| - 1 ==> s[k] == s[..|s| - 1][k];
      n + 1
    else 0
  }

  /**
   * str.strip(): the longest middle part of s that neither starts nor ends
   * with white space; everything cut off on either side is white space.
   */
  function Strip(s: string): (r: string)
    ensures r == [] || (!IsSpace(r[0]) && !IsSpace(r[|r| - 1]))
    ensures exists i :: SurroundedBySpace(s, r, i)
  {
    var i := LeadingSpace(s);
    var n := TrailingSpace(s[i..]);
    SpaceAfter(s, i, n);
    assert n < |s| - i ==> s[|s| - n - 1] == s[i..][|s| - i - n - 1];
    StripBounds(s, i, |s| - n);
    s[i..|s| - n]
  }

  /** Cut points with white space outside them and none just inside them give a SurroundedBySpace middle part. */
  lemma StripBounds(s: string, i: nat, j: nat)
    requires i <= j <= |s|
    requires forall k :: 0 <= k < i ==> IsSpace(s[k])
    requires forall k :: j <= k < |s| ==> IsSpace(s[k])
    ensures SurroundedBySpace(s, s[i..j], i)
  {
  }

  /** White space that ends s[i..] ends s. */
  lemma SpaceAfter(s: string, i: nat, n: nat)
    requires i <= |s| && n <= |s| - i
    requires forall k :: |s| - i - n <= k < |s| - i ==> IsSpace(s[i..][k])
    ensures forall k :: |s| - n <= k < |s| ==> IsSpace(s[k])
  {
    forall k | |s| - n <= k < |s| ensures IsSpace(s[k]) {
      assert s[k] == s[i..][k - i];
    }
  }

  /** s is r with white space only before it (i characters) and after it. */
  predicate SurroundedBySpace(s: string, r: string, i: int)
  {
    0 <= i <= |s| - |r| && r == s[i..i + |r|] &&
    (forall k :: 0 <= k < i ==> IsSpace(s[k])) &&
    (forall k :: i + |r| <= k < |s| ==> IsSpace(s[k]))
  }

  /** Stripping a text that already has no surrounding white space changes nothing. */
  lemma StripUnpadded(s: string)
    requires s == [] || (!IsSpace(s[0]) && !IsSpace(s[|s| - 1]))
    ensures Strip(s) == s
  {
  }

  lemma StripIdempotent(s: string)
    ensures Strip(Strip(s)) == Strip(s)
  {
    StripUnpadded(Strip(s));
  }

  // ---------------------------------------------------------------------
  // Lines of a text
  // ---------------------------------------------------------------------

  /** text.split("\n"): the lines of a text, the last one possibly empty. */
  function Lines(s: string): (r: seq<string>)
    ensures |r| >= 1
    ensures forall i :: 0 <= i < |r| ==> '\n' !in r[i]
  {
    if s == [] then [""]
    else
      var rest := Lines(s[1..]);
      if s[0] == '\n' then [""] + rest
      else [[s[0]] + rest[0]] + rest[1..]
  }

  /** "\n".join(lines) */
  function Join(lines: seq<string>): string
    requires |lines| >= 1
  {
    if |lines| == 1 then lines[0] else lines[0] + "\n" + Join(lines[1..])
  }

  lemma {:induction false} JoinLines(s: string)
    ensures Join(Lines(s)) == s
  {
    if s != [] {
      var rest := Lines(s[1..]);
      JoinLines(s[1..]);
      if s[0] != '\n' {
        var r := Lines(s);
        assert r[1..] == rest[1..];
        if |rest| == 1 {
          assert Join(r) == [s[0]] + rest[0];
        } else {
          assert Join(r) == [s[0]] + rest[0] + "\n" + Join(rest[1..]);
          assert Join(rest) == rest[0] + "\n" + Join(rest[1..]);
        }
        assert s == [s[0]] + s[1..];
      } else {
        assert s == "\n" + s[1..];
      }
    }
  }

  lemma {:induction false} LinesOfLine(a: string, b: string)
    requires '\n' !in a
    ensures Lines(a) == [a]
    ensures Lines(a + "\n" + b) == [a] + Lines(b)
  {
    if a == [] {
      assert ("" + "\n" + b)[1..] == b;
    } else {
      LinesOfLine(a[1..], b);
      assert (a + "\n" + b)[1..] == a[1..] + "\n" + b;
      assert [a[0]] + a[1..] == a;
    }
  }

  lemma {:induction false} LinesJoin(lines: seq<string>)
    requires |lines| >= 1
    requires forall i :: 0 <= i < |lines| ==> '\n' !in lines[i]
    ensures Lines(Join(lines)) == lines
  {
    if |lines| == 1 {
      LinesOfLine(lines[0], "");
    } else {
      LinesJoin(lines[1..]);
      LinesOfLine(lines[0], Join(lines[1..]));
      assert lines == [lines[0]] + lines[1..];
    }
  }

  // ---------------------------------------------------------------------
  // The rewrite
  // ---------------------------------------------------------------------

  /** The title line the fallback starts with: "# <folder> - <stem>". */
  function Header(folder: string, stem: string): (r: string)
    ensures |r| == |folder| + |stem| + 5
    ensures r[..2] == "# " && r[2..2 + |folder|] == folder && r[2 + |folder|..5 + |folder|] == " - " && r[5 + |folder|..] == stem
  {
    "# " + folder + " - " + stem
  }

  /** The document built locally when the service fails. */
  function Fallback(raw: string, stem: string, folder: string): (r: string)
    ensures |r| == |Header(folder, stem)| + 2 + |raw| && r[|r| - |raw|..] == raw
    ensures r[..|Header(folder, stem)| + 2] == Header(folder, stem) + "\n\n"
  {
    var r := Header(folder, stem) + "\n\n" + raw;
    assert r == (Header(folder, stem) + "\n\n") + raw;
    r
  }

  /**
   * Read line by line, the fallback is the title line, one empty line and
   * then exactly the lines of the raw transcript.
   */
  lemma FallbackLines(raw: string, stem: string, folder: string)
    requires '\n' !in folder && '\n' !in stem
    ensures Lines(Fallback(raw, stem, folder)) == [Header(folder, stem), ""] + Lines(raw)
  {
    var h := Header(folder, stem);
    var ls := [h, ""] + Lines(raw);
    assert '\n' !in h by {
      assert forall i :: 0 <= i < |h| ==> h[i] in "# - " || h[i] in folder || h[i] in stem;
    }
    JoinLines(raw);
    assert ls[1..][1..] == Lines(raw);
    assert Join(ls) == h + "\n" + ("" + "\n" + Join(Lines(raw)));
    assert Join(ls) == Fallback(raw, stem, folder);
    LinesJoin(ls);
  }

  /** reescrever_chatgpt: the service's reply stripped of surrounding white space, or the fallback. */
  function RewriteChatGpt(raw: string, stem: string, folder: string, reply: ChatReply): (r: string)
    ensures reply.Reply? && reply.content.Some? ==> r == Strip(reply.content.value)
    ensures !(reply.Reply? && reply.content.Some?) ==> r == Fallback(raw, stem, folder) && |r| > |raw|
  {
    match reply
    case Reply(Some(content)) => Strip(content)
    case _ => Fallback(raw, stem, folder)
  }

  /**
   * The reply is not checked: a blank reply becomes an empty document,
   * without title line and without fallback.
   */
  lemma ReplyNotValidated(raw: string, stem: string, folder: string, s: string)
    requires forall k :: 0 <= k < |s| ==> IsSpace(s[k])
    ensures RewriteChatGpt(raw, stem, folder, Reply(Some(s))) == ""
  {
  }
}
