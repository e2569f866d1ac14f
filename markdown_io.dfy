/** `extract_from_markdown`: the content of the first fenced code block of a model
    reply, parsed as JSON when it parses, and otherwise the reply itself.

    The search `re.search(r"```(?:\w+)?\s*(.*?)\s*```", text, re.DOTALL)` is written
    out: the match starts at the first fence; the optional language tag takes the
    longest run of word characters after it (no backtick is a word character or
    whitespace, so backing off never finds an earlier closing fence); the leading
    whitespace is skipped; and the lazy group ends where the whitespace before the
    next fence begins. `json.loads` is a parameter. */
module MarkdownIo {
  import opened Common

  /** The regex class `\w`, over ASCII: letters, digits and underscore. */
  predicate IsWordChar(c: char)
  {
    ('a' <= c <= 'z') || ('A' <= c <= 'Z') || ('0' <= c <= '9') || c == '_'
  }

  /** One past the longest run of word characters starting at `from`. */
  function WordEnd(s: string, from: nat): (k: nat)
    requires from <= |s|
    ensures from <= k <= |s|
    ensures forall i :: from <= i < k ==> IsWordChar(s[i])
    ensures k < |s| ==> !IsWordChar(s[k])
    decreases |s| - from
  {
    if from == |s| || !IsWordChar(s[from]) then from else WordEnd(s, from + 1)
  }

  const Fence := "```"

  /** Where the block's content begins: after the first fence, its language tag and
      the whitespace that follows. */
  function ContentStart(text: string, open: nat): (q: nat)
    requires open + 3 <= |text|
    ensures open + 3 <= q <= |text|
  {
    SkipSpace(text, WordEnd(text, open + 3))
  }

  /** No fence starts inside the language tag or the whitespace after it, so looking
      for the closing fence from q finds the same fence as looking right after the
      opening one. */
  lemma ContentStartSkipsNoFence(text: string, open: nat)
    requires open + 3 <= |text|
    ensures Find(text, Fence, open + 3) == Find(text, Fence, ContentStart(text, open))
  {
    var t := WordEnd(text, open + 3);
    var q := ContentStart(text, open);
    forall i | open + 3 <= i < q ensures text[i] != '`' {
      if i < t {
        assert IsWordChar(text[i]);
      } else {
        assert IsSpace(text[i]);
      }
    }
    FindSkips(text, open + 3, q);
  }

  /** Searching from a or from b finds the same fence when no backtick lies between. */
  lemma {:induction false} FindSkips(text: string, a: nat, b: nat)
    requires a <= b <= |text|
    requires forall i :: a <= i < b ==> text[i] != '`'
    ensures Find(text, Fence, a) == Find(text, Fence, b)
    decreases b - a
  {
    if a < b {
      FindSkips(text, a + 1, b);
      if a + 3 <= |text| {
        assert text[a..a + 3][0] == text[a];
      }
    }
  }

  /** `match.group(1).strip()` when the pattern matches: the pattern matches exactly
      when there is a second fence after the first one. */
  function FencedContent(text: string): (r: Option<string>)
    ensures r.Some? <==>
              Find(text, Fence, 0).Some? && Find(text, Fence, Find(text, Fence, 0).value + 3).Some?
    ensures r.Some? ==> !Contains(r.value, Fence)
    ensures r.Some? && r.value != [] ==> !IsSpace(r.value[0]) && !IsSpace(r.value[|r.value| - 1])
    ensures !Contains(text, Fence) ==> r.None?
  {
    match Find(text, Fence, 0)
    case None => None
    case Some(open) =>
      var q := ContentStart(text, open);
      ContentStartSkipsNoFence(text, open);
      match Find(text, Fence, q)
      case None => None
      case Some(close) =>
        FirstFenceSliceClear(text, q, close);
        StripKeepsOut(text[q..close], Fence);
        Some(Strip(text[q..close]))
  }

  /** No fence lies wholly before the first fence at or after q. */
  lemma FirstFenceSliceClear(text: string, q: nat, close: nat)
    requires Find(text, Fence, q) == Some(close)
    ensures q <= close <= |text| && !Contains(text[q..close], Fence)
  {
    var part := text[q..close];
    forall k: nat | k + 3 <= |part| ensures !OccursAt(part, Fence, k) {
      assert part[k..k + 3] == text[q + k..q + k + 3];
      assert !OccursAt(text, Fence, q + k);
    }
    ContainsIff(part, Fence);
  }

  /** The parts of a closed block between the opening fence at `open` and the closing
      fence at `close`: the language tag text[open + 3..t], whitespace text[t..a], the
      stripped content text[a..b], and whitespace text[b..close]. */
  predicate BlockParts(text: string, open: nat, close: nat, t: nat, a: nat, b: nat)
  {
    && open + 3 <= t <= a <= b <= close < |text|
    && (forall i :: open + 3 <= i < t ==> IsWordChar(text[i]))
    && !IsWordChar(text[t])
    && (forall i :: t <= i < a ==> IsSpace(text[i]))
    && (forall i :: b <= i < close ==> IsSpace(text[i]))
    && (a < b ==> !IsSpace(text[a]) && !IsSpace(text[b - 1]))
  }

  /** When the first fence is followed by another, the block is found, and its content
      is the text between the fences without the language tag and the surrounding
      whitespace. */
  lemma ClosedBlock(text: string, open: nat, close: nat)
    requires Find(text, Fence, 0) == Some(open)
    requires Find(text, Fence, open + 3) == Some(close)
    ensures FencedContent(text).Some?
    ensures exists t: nat, a: nat, b: nat :: BlockParts(text, open, close, t, a, b) && FencedContent(text).value == text[a..b]
  {
    var t := WordEnd(text, open + 3);
    var q := ContentStart(text, open);
    ContentStartSkipsNoFence(text, open);
    assert FencedContent(text) == Some(Strip(text[q..close]));
    var a, b := StripInside(text, q, close);
    assert BlockParts(text, open, close, t, a, b);
  }

  /** Where `Strip(text[q..close])` lies in text. */
  lemma StripInside(text: string, q: nat, close: nat) returns (a: nat, b: nat)
    requires q <= close < |text|
    ensures q <= a <= b <= close && Strip(text[q..close]) == text[a..b]
    ensures forall k :: q <= k < a ==> IsSpace(text[k])
    ensures forall k :: b <= k < close ==> IsSpace(text[k])
    ensures a < b ==> !IsSpace(text[a]) && !IsSpace(text[b - 1])
  {
    var c := text[q..close];
    var i := SkipSpace(c, 0);
    var j := TrimEnd(c, i);
    assert Strip(c) == c[i..j];
    a, b := q + i, q + j;
    assert c[i..j] == text[a..b] by {
      forall k | 0 <= k < j - i ensures c[i..j][k] == text[a..b][k] {
        assert c[i + k] == text[a + k];
      }
    }
    if a < b {
      assert c[i] == text[a] && c[j - 1] == text[b - 1];
    }
    forall k | q <= k < a ensures IsSpace(text[k]) {
      assert c[k - q] == text[k];
    }
    forall k | b <= k < close ensures IsSpace(text[k]) {
      assert c[k - q] == text[k];
    }
  }

  /** What the function returns: the parsed JSON value, or a string. */
  datatype Extracted<J> = Json(value: J) | Text(text: string)

  /** `extract_from_markdown`, with `json.loads` as `parseJson` (None when it raises
      `JSONDecodeError`). */
  function ExtractFromMarkdown<J>(text: string, parseJson: string -> Option<J>): (r: Extracted<J>)
    ensures FencedContent(text).None? ==> r == Text(text)
    ensures FencedContent(text).Some? && parseJson(FencedContent(text).value).Some? ==>
              r == Json(parseJson(FencedContent(text).value).value)
    ensures FencedContent(text).Some? && parseJson(FencedContent(text).value).None? ==>
              r == Text(FencedContent(text).value)
  {
    match FencedContent(text)
    case None => Text(text)
    case Some(content) =>
      match parseJson(content)
      case Some(v) => Json(v)
      case None => Text(content)
  }

  /** A reply without any fence is returned unchanged. */
  lemma NoFenceUnchanged<J>(text: string, parseJson: string -> Option<J>)
    requires !Contains(text, Fence)
    ensures ExtractFromMarkdown(text, parseJson) == Text(text)
  {
  }

  /** A reply with a single fence has no block either, and is returned unchanged. */
  lemma UnclosedFenceUnchanged<J>(text: string, parseJson: string -> Option<J>)
    requires Find(text, Fence, 0).Some?
    requires Find(text, Fence, Find(text, Fence, 0).value + 3).None?
    ensures ExtractFromMarkdown(text, parseJson) == Text(text)
  {
  }

  /** A string result other than the reply itself is the stripped content of the
      block, which holds no fence. */
  lemma TextResultIsContent<J>(text: string, parseJson: string -> Option<J>)
    requires ExtractFromMarkdown(text, parseJson).Text?
    requires ExtractFromMarkdown(text, parseJson).text != text
    ensures FencedContent(text).Some?
    ensures ExtractFromMarkdown(text, parseJson).text == FencedContent(text).value
    ensures !Contains(ExtractFromMarkdown(text, parseJson).text, Fence)
  {
  }
}
