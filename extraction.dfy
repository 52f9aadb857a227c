/**
 * `parse_json_safe`: the tolerant reading of a chat reply. The JSON decoder
 * (`json.loads`) is not modelled; it is the parameter `parse`, and what is
 * verified is which string each tier hands to it and in which order.
 */
module Extraction {
  import opened Basics
  import opened PyText

  /** The opening of a Markdown code fence. */
  const Fence: string := "```"

  /**
   * The string the first tier decodes: the stripped reply, or, when that
   * starts with a fence, its lines without the first and the last, joined by "\n".
   */
  function FirstTierText(txt: string): (r: string)
    ensures |r| <= |txt|
  {
    var cleaned := Strip(txt);
    if StartsWith(cleaned, Fence) then
      FencedNoLonger(cleaned);
      Join("\n", PySlice(SplitLines(cleaned), 1, -1))
    else cleaned
  }

  /** The inner lines of a stripped fenced reply, joined by "\n", are no longer than the reply. */
  lemma FencedNoLonger(cleaned: string)
    requires cleaned != [] && !IsSpace(cleaned[|cleaned| - 1])
    ensures |Join("\n", PySlice(SplitLines(cleaned), 1, -1))| <= |cleaned|
  {
    JoinInnerNoLonger("\n", SplitLines(cleaned));
    JoinSplitLines(cleaned);
  }

  /**
   * The string the second tier decodes: `txt[txt.find("{"):txt.rfind("}") + 1]`
   * of the reply as received (not stripped).
   */
  function SecondTierText(txt: string): (c: string)
    ensures |c| <= |txt|
    ensures c != [] ==> c[|c| - 1] == '}'
    ensures c != [] && '{' in txt ==> c[0] == '{'
  {
    PySlice(txt, Find(txt, '{'), RFind(txt, '}') + 1)
  }

  /**
   * `parse_json_safe(txt)`: the first tier's value if it decodes; otherwise
   * whatever the second tier gives, its error included (the bare `raise`
   * re-raises the second decoder error).
   */
  function ParseJsonSafe<J, E>(txt: string, parse: string -> Result<J, E>): (r: Result<J, E>)
    ensures parse(FirstTierText(txt)).Ok? ==> r == parse(FirstTierText(txt))
    ensures parse(FirstTierText(txt)).Err? ==> r == parse(SecondTierText(txt))
    ensures r.Ok? ==> r == parse(FirstTierText(txt)) || r == parse(SecondTierText(txt))
  {
    match parse(FirstTierText(txt))
    case Ok(v) => Ok(v)
    case Err(_) => parse(SecondTierText(txt))
  }

  /** Text whose first character is not a backquote does not open a fence. */
  lemma NotFenced(s: string)
    requires s != [] && s[0] != '`'
    ensures !StartsWith(s, Fence)
  {
    if |Fence| <= |s| { assert s[..|Fence|][0] == s[0]; }
  }

  /** Without a fence the first tier decodes the stripped reply. */
  lemma FirstTierUnfenced(txt: string)
    requires !StartsWith(Strip(txt), Fence)
    ensures FirstTierText(txt) == Strip(txt)
  {
  }

  /**
   * A fenced reply of one or two lines leaves nothing between its first and
   * last lines, so the first tier decodes the empty string.
   */
  lemma FirstTierShortFence(txt: string)
    requires StartsWith(Strip(txt), Fence) && |SplitLines(Strip(txt))| <= 2
    ensures FirstTierText(txt) == ""
  {
    var lines := SplitLines(Strip(txt));
    assert PySlice(lines, 1, -1) == [];
  }

  /**
   * "```json\n{"a":1}```" has two lines, so the first tier decodes "" and,
   * when that fails, the object is recovered by the brace fallback alone.
   */
  lemma TwoLineFenceExample<J, E>(reply: string, parse: string -> Result<J, E>)
    requires reply == "```json\n{\"a\":1}```"
    requires parse("").Err?
    ensures FirstTierText(reply) == ""
    ensures ParseJsonSafe(reply, parse) == parse("{\"a\":1}")
  {
    TwoLineFirstTier(reply);
    TwoLineSecondTier(reply);
  }

  lemma TwoLineFirstTier(reply: string)
    requires reply == "```json\n{\"a\":1}```"
    ensures FirstTierText(reply) == ""
  {
    assert Strip(reply) == reply by {
      assert [] + reply + [] == reply;
      StripUnique([], reply, []);
    }
    assert StartsWith(reply, Fence) by { assert reply[..3] == Fence; }
    TwoLineLines(reply);
    FirstTierShortFence(reply);
  }

  lemma TwoLineLines(reply: string)
    requires reply == "```json\n{\"a\":1}```"
    ensures |SplitLines(reply)| == 2
  {
    var open, rest := "```json", "{\"a\":1}```";
    assert NoLineBreak(open) && NoLineBreak(rest) && rest != [];
    assert reply[|open|] == '\n' && reply[..|open|] == open && reply[|open| + 1..] == rest;
    SplitLinesAtNewline(reply, |open|);
    SplitLinesOneLine(rest);
  }

  lemma TwoLineSecondTier(reply: string)
    requires reply == "```json\n{\"a\":1}```"
    ensures SecondTierText(reply) == "{\"a\":1}"
  {
    var before, doc, after := "```json\n", "{\"a\":1}", "```";
    assert before + doc + after == reply;
    assert '{' !in before by { NoCharIn(before, '{'); }
    assert '}' !in after by { NoCharIn(after, '}'); }
    BracesAroundDocument(before, doc, after);
  }

  /**
   * A fenced reply, possibly surrounded by whitespace, gives the first tier
   * exactly the text between the opening line and the closing line, provided
   * that text breaks lines with "\n" only.
   */
  lemma FirstTierFencedBody(pre: string, open: string, body: string, close: string, post: string)
    requires AllSpace(pre) && AllSpace(post)
    requires StartsWith(open, Fence) && NoLineBreak(open)
    requires close != [] && NoLineBreak(close) && !IsSpace(close[|close| - 1])
    requires OnlyNewlineBreaks(body)
    ensures FirstTierText(pre + open + "\n" + body + "\n" + close + post) == body
  {
    var txt := pre + open + "\n" + body + "\n" + close + post;
    var reply := open + "\n" + body + "\n" + close;
    assert Strip(txt) == reply by {
      assert reply[0] == '`' && reply[|reply| - 1] == close[|close| - 1];
      assert txt == pre + reply + post;
      StripUnique(pre, reply, post);
    }
    assert StartsWith(reply, Fence) by { assert reply[..|Fence|] == open[..|Fence|]; }
    FencedInnerLines(open, body, close);
    JoinSplitNewline(body);
  }

  /**
   * Whatever line boundaries a fenced reply uses ("\r\n", "\r", form feed, ...),
   * the first tier gets the text between its first and last lines with each
   * boundary written as "\n": stated on the stripped reply once its boundaries
   * are normalised to open + "\n" + body + "\n" + close.
   */
  lemma FirstTierFenced(txt: string, open: string, body: string, close: string)
    requires StartsWith(Strip(txt), Fence)
    requires NormalizeBreaks(Strip(txt)) == open + ("\n" + (body + ("\n" + close)))
    requires '\n' !in open && '\n' !in close
    ensures FirstTierText(txt) == body
  {
    var c := Strip(txt);
    assert !EndsAtBreak(c) by { assert !IsSpace(c[|c| - 1]); }
    NormalizedFencedLines(c, open, body, close);
    InnerLines(open, SplitNewline(body), close);
    JoinSplitNewline(body);
  }

  /** The lines of a text that normalises to open + "\n" + body + "\n" + close. */
  lemma NormalizedFencedLines(c: string, open: string, body: string, close: string)
    requires !EndsAtBreak(c)
    requires NormalizeBreaks(c) == open + ("\n" + (body + ("\n" + close)))
    requires '\n' !in open && '\n' !in close
    ensures SplitLines(c) == [open] + SplitNewline(body) + [close]
  {
    SplitLinesPieces(c);
    calc {
      SplitLines(c);
      SplitNewline(open + ("\n" + (body + ("\n" + close))));
      { SplitNewlineCons(open, body + ("\n" + close)); }
      [open] + SplitNewline(body + ("\n" + close));
      { SplitNewlineSnoc(body, close); }
      [open] + (SplitNewline(body) + [close]);
    }
  }

  /** `[1:-1]` of a list keeps everything but its first and last elements. */
  lemma InnerLines(open: string, pieces: seq<string>, close: string)
    ensures PySlice([open] + pieces + [close], 1, -1) == pieces
  {
    var lines := [open] + pieces + [close];
    assert lines[1..|lines| - 1] == pieces;
  }

  /** A fenced reply whose lines end with "\r\n" decodes as the object inside the fence. */
  lemma CrLfFencedExample<J, E>(reply: string, parse: string -> Result<J, E>)
    requires reply == "```\r\n{}\r\n```"
    ensures ParseJsonSafe(reply, parse) == parse("{}")
  {
    CrLfFirstTier(reply);
    CrLfSecondTier(reply);
  }

  lemma CrLfFirstTier(reply: string)
    requires reply == "```\r\n{}\r\n```"
    ensures FirstTierText(reply) == "{}"
  {
    assert Strip(reply) == reply by {
      assert [] + reply + [] == reply;
      StripUnique([], reply, []);
    }
    assert StartsWith(reply, Fence) by { assert reply[..3] == Fence; }
    CrLfNormalized(reply);
    FirstTierFenced(reply, "```", "{}", "```");
  }

  lemma CrLfNormalized(reply: string)
    requires reply == "```\r\n{}\r\n```"
    ensures NormalizeBreaks(reply) == "```" + ("\n" + ("{}" + ("\n" + "```")))
  {
    var fence, tail := reply[..3], reply[5..];
    assert fence == "```" && tail == "{}\r\n```";
    assert tail[..2] == "{}" && tail[4..] == "```";
    assert NoLineBreak(fence) && NoLineBreak(tail[..2]);
    assert BreakWidth(reply, 3) == 2 && BreakWidth(tail, 2) == 2;
    calc {
      NormalizeBreaks(reply);
      { NormalizeSplitAt(reply, 3); }
      fence + NormalizeBreaks(reply[3..]);
      { NormalizeFromBreak(reply, 3); }
      fence + ("\n" + NormalizeBreaks(tail));
      { NormalizeSplitAt(tail, 2); }
      fence + ("\n" + ("{}" + NormalizeBreaks(tail[2..])));
      { NormalizeFromBreak(tail, 2); }
      fence + ("\n" + ("{}" + ("\n" + NormalizeBreaks(tail[4..]))));
      { assert fence + [] == fence; NormalizePrefix(fence, []); }
      "```" + ("\n" + ("{}" + ("\n" + "```")));
    }
  }

  lemma CrLfSecondTier(reply: string)
    requires reply == "```\r\n{}\r\n```"
    ensures SecondTierText(reply) == "{}"
  {
    assert "```\r\n" + "{}" + "\r\n```" == reply;
    BracesAroundDocument("```\r\n", "{}", "\r\n```");
  }

  /** Dropping the first and last lines of a fenced reply leaves the pieces of its body. */
  lemma FencedInnerLines(open: string, body: string, close: string)
    requires NoLineBreak(open) && OnlyNewlineBreaks(body)
    requires close != [] && NoLineBreak(close)
    ensures PySlice(SplitLines(open + "\n" + body + "\n" + close), 1, -1) == SplitNewline(body)
  {
    FencedLines(open, body, close);
    var lines := [open] + SplitNewline(body) + [close];
    assert lines[1..|lines| - 1] == SplitNewline(body);
  }

  /** The lines of a fenced reply: the opening line, the pieces of the body, the closing line. */
  lemma FencedLines(open: string, body: string, close: string)
    requires NoLineBreak(open) && OnlyNewlineBreaks(body)
    requires close != [] && NoLineBreak(close)
    ensures SplitLines(open + "\n" + body + "\n" + close) == [open] + SplitNewline(body) + [close]
  {
    var reply := open + "\n" + body + "\n" + close;
    assert reply[..|open|] == open && reply[|open| + 1..] == body + "\n" + close;
    SplitLinesAtNewline(reply, |open|);
    SplitLinesBeforeLastLine(body, close);
  }

  /**
   * When the reply holds a `{` at i with none before it and a `}` at j >= i
   * with none after it, the second tier decodes exactly txt[i..j+1].
   */
  lemma SecondTierBraces(txt: string, i: nat, j: nat)
    requires i <= j < |txt|
    requires txt[i] == '{' && forall n :: 0 <= n < i ==> txt[n] != '{'
    requires txt[j] == '}' && forall n :: j < n < |txt| ==> txt[n] != '}'
    ensures SecondTierText(txt) == txt[i..j + 1]
  {
    var lo, hi := Find(txt, '{'), RFind(txt, '}');
    assert '{' in txt && '}' in txt;
    assert lo == i;
    assert hi == j;
  }

  /** A reply without `}` gives the second tier the empty string. */
  lemma SecondTierNoClosingBrace(txt: string)
    requires '}' !in txt
    ensures SecondTierText(txt) == ""
  {
  }

  /**
   * A reply without `{` starts the slice at the last character (find gives -1),
   * so the second tier gets "}" when the reply ends with `}` and "" otherwise.
   */
  lemma SecondTierNoOpeningBrace(txt: string)
    requires '{' !in txt && txt != []
    ensures SecondTierText(txt) == if txt[|txt| - 1] == '}' then "}" else ""
  {
  }

  /** When the last `}` comes before the first `{`, the second tier gets "". */
  lemma SecondTierMisordered(txt: string, i: nat, j: nat)
    requires j < i < |txt|
    requires txt[i] == '{' && forall n :: 0 <= n < i ==> txt[n] != '{'
    requires txt[j] == '}' && forall n :: j < n < |txt| ==> txt[n] != '}'
    ensures SecondTierText(txt) == ""
  {
    assert Find(txt, '{') == i by { assert '{' in txt; }
    assert RFind(txt, '}') == j by { assert '}' in txt; }
  }

  /**
   * A document wrapped in prose without braces is recovered by the second tier
   * whenever the first tier fails.
   */
  lemma ProseWrappedDocument<J, E>(before: string, doc: string, after: string, parse: string -> Result<J, E>)
    requires '{' !in before && '}' !in after
    requires |doc| >= 2 && doc[0] == '{' && doc[|doc| - 1] == '}'
    requires parse(FirstTierText(before + doc + after)).Err?
    ensures ParseJsonSafe(before + doc + after, parse) == parse(doc)
  {
    BracesAroundDocument(before, doc, after);
  }

  /** A fenced document is decoded as the text inside the fence, whichever tier succeeds. */
  lemma FencedDocument<J, E>(open: string, doc: string, close: string, parse: string -> Result<J, E>)
    requires StartsWith(open, Fence) && NoLineBreak(open) && '{' !in open
    requires close != [] && NoLineBreak(close) && !IsSpace(close[|close| - 1]) && '}' !in close
    requires OnlyNewlineBreaks(doc) && |doc| >= 2 && doc[0] == '{' && doc[|doc| - 1] == '}'
    ensures ParseJsonSafe(open + "\n" + doc + "\n" + close, parse) == parse(doc)
  {
    FencedFirstTier(open, doc, close);
    FencedSecondTier(open, doc, close);
  }

  lemma FencedFirstTier(open: string, doc: string, close: string)
    requires StartsWith(open, Fence) && NoLineBreak(open)
    requires close != [] && NoLineBreak(close) && !IsSpace(close[|close| - 1])
    requires OnlyNewlineBreaks(doc)
    ensures FirstTierText(open + "\n" + doc + "\n" + close) == doc
  {
    assert open + "\n" + doc + "\n" + close == [] + open + "\n" + doc + "\n" + close + [];
    FirstTierFencedBody([], open, doc, close, []);
  }

  lemma FencedSecondTier(open: string, doc: string, close: string)
    requires '{' !in open && '}' !in close
    requires |doc| >= 2 && doc[0] == '{' && doc[|doc| - 1] == '}'
    ensures SecondTierText(open + "\n" + doc + "\n" + close) == doc
  {
    var before, after := open + "\n", "\n" + close;
    assert open + "\n" + doc + "\n" + close == before + doc + after;
    BracesAroundDocument(before, doc, after);
  }

  /** The braces of a document wrapped in brace-free prose are the ones the second tier finds. */
  lemma BracesAroundDocument(before: string, doc: string, after: string)
    requires '{' !in before && '}' !in after
    requires |doc| >= 2 && doc[0] == '{' && doc[|doc| - 1] == '}'
    ensures SecondTierText(before + doc + after) == doc
  {
    var txt := before + doc + after;
    var i, j := |before|, |before| + |doc| - 1;
    assert txt[i] == '{' && txt[j] == '}';
    forall n | 0 <= n < i ensures txt[n] != '{' { assert txt[n] == before[n]; }
    forall n | j < n < |txt| ensures txt[n] != '}' { assert txt[n] == after[n - j - 1]; }
    SecondTierBraces(txt, i, j);
    assert txt[i..j + 1] == doc;
  }

  /** A reply fenced as a json code block decodes as the object inside the fence. */
  lemma FencedReplyExample<J, E>(parse: string -> Result<J, E>)
    ensures ParseJsonSafe("```json\n{\"a\":1}\n```", parse) == parse("{\"a\":1}")
  {
    var open, doc, close := "```json", "{\"a\":1}", "```";
    assert open + "\n" + doc + "\n" + close == "```json\n{\"a\":1}\n```";
    assert StartsWith(open, Fence) by { assert open[..3] == Fence; }
    FencedDocument(open, doc, close, parse);
  }

  /**
   * A reply that is prose around an object, with nothing to strip and no
   * fence, decodes as the object once the whole reply fails to decode.
   */
  lemma PlainProseReply<J, E>(before: string, doc: string, after: string, parse: string -> Result<J, E>)
    requires before != [] && !IsSpace(before[0]) && before[0] != '`' && '{' !in before
    requires after != [] && !IsSpace(after[|after| - 1]) && '}' !in after
    requires |doc| >= 2 && doc[0] == '{' && doc[|doc| - 1] == '}'
    requires parse(before + doc + after).Err?
    ensures ParseJsonSafe(before + doc + after, parse) == parse(doc)
  {
    var txt := before + doc + after;
    assert txt[0] == before[0] && txt[|txt| - 1] == after[|after| - 1];
    assert Strip(txt) == txt by {
      assert [] + txt + [] == txt;
      StripUnique([], txt, []);
    }
    NotFenced(txt);
    ProseWrappedDocument(before, doc, after, parse);
  }

  /** A character that differs from every character of s is not in s. */
  lemma NoCharIn(s: string, c: char)
    requires forall k :: 0 <= k < |s| ==> s[k] != c
    ensures c !in s
  {
  }

  /** The reply "Sure! Here is the result: {"a":1} Hope that helps." decodes as the object inside it. */
  lemma ProseReplyExample<J, E>(reply: string, parse: string -> Result<J, E>)
    requires reply == "Sure! Here is the result: {\"a\":1} Hope that helps."
    requires parse(reply).Err?
    ensures ParseJsonSafe(reply, parse) == parse("{\"a\":1}")
  {
    var before, doc, after := "Sure! Here is the result: ", "{\"a\":1}", " Hope that helps.";
    assert before + doc + after == reply;
    assert '{' !in before by { NoCharIn(before, '{'); }
    assert '}' !in after by { NoCharIn(after, '}'); }
    PlainProseReply(before, doc, after, parse);
  }

  /** A reply without braces fails when neither it nor the empty string decodes. */
  lemma NotJsonExample<J, E>(reply: string, parse: string -> Result<J, E>)
    requires reply == "not json at all"
    requires parse(reply).Err? && parse("").Err?
    ensures ParseJsonSafe(reply, parse).Err?
  {
    assert Strip(reply) == reply by {
      assert [] + reply + [] == reply;
      StripUnique([], reply, []);
    }
    NotFenced(reply);
    SecondTierNoClosingBrace(reply);
  }
}
