/**
 * The post-processing of `evaluateHandShapeCreation`
 * (services/geminiService.ts): how the outcome of the model call becomes a
 * ScoreData. The SDK call and JSON.parse are inputs: the call's outcome is
 * a value, and JSON.parse is a function from the text handed to it to what
 * the code then observes of the parsed value.
 */
module Gemini {
  import opened Wrappers
  import opened GameTypes

  const MissingKeyText: string := "APIキーが設定されていません。ゲームをプレイするには設定が必要です。"
  const EmptyResponseText: string := "AIから評価をもらえませんでした。もう一度試してみてね！"
  const UnreadableText: string := "AIからの評価をうまく読み取れませんでした。もう一度試してみてね！"
  const GenericErrorText: string := "AIとの通信でエラーが発生しました。時間をおいてもう一度試してみてね。"
  const InvalidKeyText: string := "APIキーが無効です。正しいAPIキーを設定してください。"
  const QuotaText: string := "APIの利用上限に達したようです。時間をおいて試してください。"

  /** What the model call leads to. */
  datatype CallOutcome =
    | NoKey                          // GEMINI_API_KEY unset: no call is made
    | Responded(text: Option<string>) // `response.text`, possibly undefined
    | Threw(error: Option<string>)    // the message of a thrown Error; None for a non-Error

  /** What the code can observe of `JSON.parse(jsonStr)`. */
  datatype Parsed =
    | ParseThrew(message: string)   // the SyntaxError's message
    | NullValue(accessError: string)
      // the text `null`: reading `.points` of it throws a TypeError with this message
    | Value(points: Option<real>, feedback: Option<string>)
      // any other value: `points` when `typeof points === 'number'`, `feedback` when a string

  /** The characters ECMAScript's `\s` and `String.prototype.trim` treat as white space. */
  predicate IsWhitespace(c: char) {
    c == '\U{9}' || c == '\U{A}' || c == '\U{B}' || c == '\U{C}' || c == '\U{D}' ||
    c == '\U{20}' || c == '\U{A0}' || c == '\U{1680}' || ('\U{2000}' <= c <= '\U{200A}') ||
    c == '\U{2028}' || c == '\U{2029}' || c == '\U{202F}' || c == '\U{205F}' || c == '\U{3000}' ||
    c == '\U{FEFF}'
  }

  /** ECMAScript's `\w` without the `u` flag. */
  predicate IsWordChar(c: char) {
    ('A' <= c <= 'Z') || ('a' <= c <= 'z') || ('0' <= c <= '9') || c == '_'
  }

  predicate AllWhitespace(s: string) {
    forall i :: 0 <= i < |s| ==> IsWhitespace(s[i])
  }

  predicate AllWordChars(s: string) {
    forall i :: 0 <= i < |s| ==> IsWordChar(s[i])
  }

  /** `s` with its leading white space removed. */
  function TrimStart(s: string): (r: string)
    ensures |r| <= |s| && r == s[|s| - |r|..]
    ensures AllWhitespace(s[..|s| - |r|])
    ensures r == [] || !IsWhitespace(r[0])
    decreases |s|
  {
    if s != [] && IsWhitespace(s[0]) then
      var r := TrimStart(s[1..]);
      var dropped := s[1..][..|s| - 1 - |r|];
      assert s[..|s| - |r|] == [s[0]] + dropped;
      WhitespaceCons(s[0], dropped);
      r
    else s
  }

  lemma WhitespaceCons(c: char, t: string)
    requires IsWhitespace(c) && AllWhitespace(t)
    ensures AllWhitespace([c] + t)
  {
    forall i | 0 <= i < |[c] + t| ensures IsWhitespace(([c] + t)[i]) {
      if i > 0 { assert ([c] + t)[i] == t[i - 1]; }
    }
  }

  /** `s` with its trailing white space removed. */
  function TrimEnd(s: string): (r: string)
    ensures |r| <= |s| && r == s[..|r|]
    ensures AllWhitespace(s[|r|..])
    ensures r == [] || !IsWhitespace(r[|r| - 1])
    decreases |s|
  {
    if s != [] && IsWhitespace(s[|s| - 1]) then
      var r := TrimEnd(s[..|s| - 1]);
      assert s[|r|..] == s[..|s| - 1][|r|..] + [s[|s| - 1]];
      r
    else s
  }

  /** `t` occurs in `s` at index `i`. */
  predicate OccursAt(s: string, t: string, i: int) {
    0 <= i <= |s| - |t| && s[i..i + |t|] == t
  }

  /** `String.prototype.trim`. */
  function Trim(s: string): (r: string)
    ensures r == [] || (!IsWhitespace(r[0]) && !IsWhitespace(r[|r| - 1]))
    ensures exists i :: OccursAt(s, r, i) && AllWhitespace(s[..i]) && AllWhitespace(s[i + |r|..])
  {
    var t := TrimStart(s);
    var r := TrimEnd(t);
    TrimPieces(s, t, r);
    r
  }

  /** A white-space suffix of a white-space-free suffix: `r` sits in `s` between two white-space runs. */
  lemma TrimPieces(s: string, t: string, r: string)
    requires |t| <= |s| && t == s[|s| - |t|..] && AllWhitespace(s[..|s| - |t|])
    requires |r| <= |t| && r == t[..|r|] && AllWhitespace(t[|r|..])
    ensures OccursAt(s, r, |s| - |t|)
    ensures AllWhitespace(s[..|s| - |t|]) && AllWhitespace(s[|s| - |t| + |r|..])
  {
    var i := |s| - |t|;
    assert s[i..][..|r|] == s[i..i + |r|];
    assert s[i + |r|..] == t[|r|..];
  }

  /** `s` without the run of word characters it starts with (what `(\w*)?` consumes). */
  function DropWordChars(s: string): (r: string)
    ensures |r| <= |s| && r == s[|s| - |r|..]
    ensures AllWordChars(s[..|s| - |r|])
    ensures r == [] || !IsWordChar(r[0])
    decreases |s|
  {
    if s != [] && IsWordChar(s[0]) then
      var r := DropWordChars(s[1..]);
      assert s[..|s| - |r|] == [s[0]] + s[1..][..|s| - 1 - |r|];
      r
    else s
  }

  /** Whether `s` has the ``` fences at both ends, not overlapping. */
  predicate Fenced(s: string) {
    |s| >= 6 && s[..3] == "```" && s[|s| - 3..] == "```"
  }

  /**
   * The second capture group of /^```(\w*)?\s*\n?(.*?)\n?\s*```$/s on a
   * fenced text: between the fences, after the tag and the white space
   * after it, up to the trailing white space.
   */
  function FenceContent(s: string): (r: string)
    requires Fenced(s)
  {
    TrimEnd(TrimStart(DropWordChars(s[3..|s| - 3])))
  }

  /**
   * Lines 51-55: a fenced text whose content is not empty becomes its
   * trimmed content; anything else is kept.
   */
  function Unwrap(s: string): (r: string)
    ensures !Fenced(s) ==> r == s
    ensures r == s || (Fenced(s) && r != [] && !IsWhitespace(r[0]) && !IsWhitespace(r[|r| - 1]))
  {
    if Fenced(s) && FenceContent(s) != [] then Trim(FenceContent(s)) else s
  }

  /** `String.prototype.includes`. */
  function Contains(s: string, t: string): (r: bool)
    ensures r <==> exists i :: OccursAt(s, t, i)
    decreases |s|
  {
    if |t| > |s| then false
    else if s[..|t|] == t then assert OccursAt(s, t, 0); true
    else
      var r := Contains(s[1..], t);
      assert r ==> exists i :: OccursAt(s, t, i) by {
        if r {
          var k :| OccursAt(s[1..], t, k);
          assert s[1..][k..k + |t|] == s[k + 1..k + 1 + |t|];
          assert OccursAt(s, t, k + 1);
        }
      }
      assert (exists i :: OccursAt(s, t, i)) ==> r by {
        forall i | OccursAt(s, t, i) ensures OccursAt(s[1..], t, i - 1) {
          assert s[1..][i - 1..i - 1 + |t|] == s[i..i + |t|];
        }
      }
      r
  }

  /** The catch block's choice of message. */
  function ErrorFeedback(error: Option<string>): (msg: string)
    ensures error.Some? && Contains(error.value, "API key not valid") ==> msg == InvalidKeyText
    ensures error.Some? && !Contains(error.value, "API key not valid") && Contains(error.value, "quota") ==>
      msg == QuotaText
    ensures error.None? || (!Contains(error.value, "API key not valid") && !Contains(error.value, "quota")) ==>
      msg == GenericErrorText
  {
    if error.Some? && Contains(error.value, "API key not valid") then InvalidKeyText
    else if error.Some? && Contains(error.value, "quota") then QuotaText
    else GenericErrorText
  }

  /** `Math.round`: the nearest integer, halves rounded up. */
  function Round(x: real): (n: int)
    ensures x - 0.5 < n as real <= x + 0.5
  {
    (x + 0.5).Floor
  }

  /** `Math.max(0, Math.min(100, n))`. */
  function Clamp(n: int): (r: int)
    ensures 0 <= r <= 100
    ensures 0 <= n <= 100 ==> r == n
    ensures n < 0 ==> r == 0
    ensures n > 100 ==> r == 100
  {
    if n > 100 then 100 else if n < 0 then 0 else n
  }

  /** The text handed to JSON.parse: `response.text?.trim() || ''`, then unwrapped. */
  function ResponseText(text: Option<string>): (r: string) {
    if text.Some? then Trim(text.value) else ""
  }

  /** `evaluateHandShapeCreation` after the call, with `parse` standing for JSON.parse. */
  function Evaluate(call: CallOutcome, parse: string -> Parsed): (r: ScoreData)
    ensures 0 <= r.points <= 100
    ensures call.NoKey? ==> r == ScoreData(0, MissingKeyText)
    ensures call.Threw? ==> r == ScoreData(0, ErrorFeedback(call.error))
    ensures call.Responded? && ResponseText(call.text) == [] ==> r == ScoreData(0, EmptyResponseText)
    ensures call.Responded? && ResponseText(call.text) != [] ==>
      var parsed := parse(Unwrap(ResponseText(call.text)));
      && (parsed.Value? && parsed.points.Some? && parsed.feedback.Some? ==>
            r == ScoreData(Clamp(Round(parsed.points.value)), parsed.feedback.value))
      && (parsed.Value? && (parsed.points.None? || parsed.feedback.None?) ==>
            r == ScoreData(0, UnreadableText))
      && (parsed.ParseThrew? ==> r == ScoreData(0, ErrorFeedback(Some(parsed.message))))
      && (parsed.NullValue? ==> r == ScoreData(0, ErrorFeedback(Some(parsed.accessError))))
    ensures r.points != 0 ==> call.Responded? && parse(Unwrap(ResponseText(call.text))).Value?
  {
    match call
    case NoKey => ScoreData(0, MissingKeyText)
    case Threw(error) => ScoreData(0, ErrorFeedback(error))
    case Responded(text) =>
      var jsonStr := ResponseText(text);
      if jsonStr == [] then ScoreData(0, EmptyResponseText)
      else
        match parse(Unwrap(jsonStr))
        case ParseThrew(message) => ScoreData(0, ErrorFeedback(Some(message)))
        case NullValue(accessError) => ScoreData(0, ErrorFeedback(Some(accessError)))
        case Value(points, feedback) =>
          if points.Some? && feedback.Some? then ScoreData(Clamp(Round(points.value)), feedback.value)
          else ScoreData(0, UnreadableText)
  }

  /** An integer score already in range is passed through unchanged. */
  lemma IntegerScoreKept(n: int)
    requires 0 <= n <= 100
    ensures Clamp(Round(n as real)) == n
  {
  }

  lemma {:induction false} DropWordCharsOfTag(tag: string, rest: string)
    requires AllWordChars(tag)
    requires rest == [] || !IsWordChar(rest[0])
    ensures DropWordChars(tag + rest) == rest
    decreases |tag|
  {
    if tag != [] {
      assert (tag + rest)[1..] == tag[1..] + rest;
      DropWordCharsOfTag(tag[1..], rest);
    }
  }

  lemma {:induction false} TrimStartOfSpace(space: string, rest: string)
    requires AllWhitespace(space)
    requires rest == [] || !IsWhitespace(rest[0])
    ensures TrimStart(space + rest) == rest
    decreases |space|
  {
    if space != [] {
      assert (space + rest)[1..] == space[1..] + rest;
      TrimStartOfSpace(space[1..], rest);
    }
  }

  lemma {:induction false} TrimEndOfSpace(rest: string, space: string)
    requires AllWhitespace(space)
    requires rest == [] || !IsWhitespace(rest[|rest| - 1])
    ensures TrimEnd(rest + space) == rest
    decreases |space|
  {
    if space != [] {
      var shorter := space[..|space| - 1];
      assert (rest + space)[..|rest + space| - 1] == rest + shorter;
      TrimEndOfSpace(rest, shorter);
    }
  }

  /** The text between the fences of a fenced text. */
  lemma FencedInterior(mid: string)
    ensures Fenced("```" + mid + "```")
    ensures FenceContent("```" + mid + "```") == TrimEnd(TrimStart(DropWordChars(mid)))
  {
    var s := "```" + mid + "```";
    assert s[..3] == "```" && s[|s| - 3..] == "```";
    assert s[3..|s| - 3] == mid;
  }

  /** The capture group of a tag, white space, a body and white space is the body. */
  lemma FenceInteriorContent(tag: string, before: string, body: string, after: string)
    requires AllWordChars(tag) && AllWhitespace(before) && AllWhitespace(after)
    requires body != [] && !IsWhitespace(body[0]) && !IsWhitespace(body[|body| - 1])
    requires before != [] || !IsWordChar(body[0])
    ensures TrimEnd(TrimStart(DropWordChars(tag + before + body + after))) == body
  {
    var tail := body + after;
    var rest := before + tail;
    assert tag + before + body + after == tag + rest;
    SpaceThenBody(before, tail);
    DropWordCharsOfTag(tag, rest);
    assert DropWordChars(tag + rest) == rest;
    TrimStartOfSpace(before, tail);
    assert TrimStart(rest) == tail;
    TrimEndOfSpace(body, after);
  }

  /** White space, or else a body that starts with no word character, does not continue a tag. */
  lemma SpaceThenBody(before: string, tail: string)
    requires AllWhitespace(before)
    requires tail != [] && !IsWhitespace(tail[0])
    requires before != [] || !IsWordChar(tail[0])
    ensures !IsWordChar((before + tail)[0]) && !IsWhitespace(tail[0])
  {
    if before != [] {
      assert (before + tail)[0] == before[0];
      assert IsWhitespace(before[0]);
    } else {
      assert before + tail == tail;
    }
  }

  /** A trimmed non-empty text is its own trim. */
  lemma TrimmedIsFixed(body: string)
    requires body != [] && !IsWhitespace(body[0]) && !IsWhitespace(body[|body| - 1])
    ensures Trim(body) == body
  {
  }

  /**
   * The fence round trip: a body wrapped as ```tag, white space, body,
   * white space, ``` comes back as the body. The body must not run into
   * the tag: white space separates them or the body starts with a
   * character that is not a word character.
   */
  lemma UnwrapFencedBody(tag: string, before: string, body: string, after: string)
    requires AllWordChars(tag) && AllWhitespace(before) && AllWhitespace(after)
    requires body != [] && !IsWhitespace(body[0]) && !IsWhitespace(body[|body| - 1])
    requires before != [] || !IsWordChar(body[0])
    ensures Unwrap("```" + (tag + before + body + after) + "```") == body
  {
    var mid := tag + before + body + after;
    FencedInterior(mid);
    FenceInteriorContent(tag, before, body, after);
    assert FenceContent("```" + mid + "```") == body;
    TrimmedIsFixed(body);
  }

  /** The usual reply shape: a ```json fence with newlines around the object. */
  lemma UnwrapJsonFence(body: string)
    requires body != [] && !IsWhitespace(body[0]) && !IsWhitespace(body[|body| - 1])
    ensures Unwrap("```json\n" + body + "\n```") == body
  {
    var tag, newline, fence := "json", "\n", "```";
    assert AllWordChars(tag) by {
      forall i | 0 <= i < |tag| ensures IsWordChar(tag[i]) {}
    }
    assert AllWhitespace(newline) && IsWhitespace(newline[0]);
    assert fence + tag + newline == "```json\n" && newline + fence == "\n```";
    assert "```json\n" + body + "\n```" == fence + (tag + newline + body + newline) + fence;
    UnwrapFencedBody(tag, newline, body, newline);
  }

  /** A fence whose interior is only a tag and white space is not unwrapped. */
  lemma EmptyFenceKept(tag: string, space: string)
    requires AllWordChars(tag) && AllWhitespace(space)
    ensures Unwrap("```" + tag + space + "```") == "```" + tag + space + "```"
  {
    var s := "```" + tag + space + "```";
    assert s[3..|s| - 3] == tag + space;
    if space == [] {
      DropWordCharsOfTag(tag, []);
      assert tag + [] == tag;
    } else {
      DropWordCharsOfTag(tag, space);
      TrimStartOfSpace(space, []);
      assert space + [] == space;
    }
  }

  /** Every failure path gives 0 points; only a well-formed value can score. */
  lemma FailuresScoreZero(call: CallOutcome, parse: string -> Parsed)
    requires !call.Responded? || ResponseText(call.text) == [] ||
             !parse(Unwrap(ResponseText(call.text))).Value? ||
             parse(Unwrap(ResponseText(call.text))).points.None? ||
             parse(Unwrap(ResponseText(call.text))).feedback.None?
    ensures Evaluate(call, parse).points == 0
  {
  }
}
