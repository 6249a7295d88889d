/**
 * The AI reply-suggestion flow: from the looked-up Feedback, a bounded prompt
 * is built and posted to a text-generation endpoint; the generated text is split
 * into numbered lines and cleaned into at most two suggestions. Any exception
 * after the lookup has started yields two templated fallback replies instead,
 * while an absent Feedback is answered with "not found" and nothing is posted.
 * The endpoint itself is an input: its reply is given as a value.
 */
module Suggestions {
  import opened Wrappers
  import opened JsStrings
  import opened JsNumbers
  import opened FeedbackModel

  // ---------------------------------------------------------------- snippet

  /** Texts longer than this are cut before being quoted in the prompt. */
  const SnippetLimit: nat := 100

  /** The single character "…" (U+2026) appended to a cut text. */
  const Ellipsis: char := '\U{2026}'

  /**
   * The quoted part of the feedback text: the whole text when it has at most 100
   * characters, otherwise its first 100 characters followed by one ellipsis.
   */
  function Snippet(text: string): (r: string)
    ensures |text| <= SnippetLimit ==> r == text
    ensures |text| > SnippetLimit ==> |r| == SnippetLimit + 1 && r[SnippetLimit] == Ellipsis
    ensures |r| <= SnippetLimit + 1
    ensures var n := if |text| <= SnippetLimit then |text| else SnippetLimit;
            r[..n] == text[..n]
  {
    if |text| > SnippetLimit then text[..SnippetLimit] + [Ellipsis] else text
  }

  // ----------------------------------------------------------------- prompt

  const PromptOpening := "\nUser rated us "
  const PromptBeforeSnippet := "/5 and said: \""
  const PromptBeforeRating := "\"\nWrite **two** professional replies:\n1. \U{201C}Thank you for giving us a "
  const PromptClosing := "-star rating.\U{201D}\n2. Address their comment in one sentence.\n3. Under 20 words each.\n"

  /** The number of template characters in a prompt, around the two ratings and the snippet. */
  const PromptTemplateLength: nat := |PromptOpening| + |PromptBeforeSnippet| + |PromptBeforeRating| + |PromptClosing|

  /** The three parts of a concatenation can be read back by position. */
  lemma PartsOfThree(x: string, y: string, z: string)
    ensures |x + y + z| == |x| + |y| + |z|
    ensures (x + y + z)[..|x|] == x
    ensures (x + y + z)[|x|..|x| + |y|] == y
    ensures (x + y + z)[|x| + |y|..] == z
  {
  }

  /** The prompt up to the snippet: the opening, the rating's numeral and the opening quote. */
  function PromptHead(rating: int): (h: string)
    ensures |h| == |PromptOpening| + |IntToString(rating)| + |PromptBeforeSnippet|
    ensures h[..|PromptOpening|] == PromptOpening
    ensures h[|PromptOpening|..|PromptOpening| + |IntToString(rating)|] == IntToString(rating)
  {
    PartsOfThree(PromptOpening, IntToString(rating), PromptBeforeSnippet);
    PromptOpening + IntToString(rating) + PromptBeforeSnippet
  }

  /**
   * The prompt after the snippet: the closing quote and the scripted first reply,
   * which names the rating's numeral again, then the instructions.
   */
  function PromptTail(rating: int): (t: string)
    ensures |t| == |PromptBeforeRating| + |IntToString(rating)| + |PromptClosing|
    ensures t[..|PromptBeforeRating|] == PromptBeforeRating
    ensures t[|PromptBeforeRating|..|PromptBeforeRating| + |IntToString(rating)|] == IntToString(rating)
  {
    PartsOfThree(PromptBeforeRating, IntToString(rating), PromptClosing);
    PromptBeforeRating + IntToString(rating) + PromptClosing
  }

  /**
   * The prompt template with the rating (twice) and the snippet substituted; the
   * snippet is quoted verbatim right after the head.
   */
  function Prompt(rating: int, snippet: string): (p: string)
    ensures |p| == PromptTemplateLength + 2 * |IntToString(rating)| + |snippet|
    ensures p[..|PromptHead(rating)|] == PromptHead(rating)
    ensures p[|PromptHead(rating)|..|PromptHead(rating)| + |snippet|] == snippet
    ensures p[|PromptHead(rating)| + |snippet|..] == PromptTail(rating)
  {
    var head, tail := PromptHead(rating), PromptTail(rating);
    PartsOfThree(head, snippet, tail);
    head + snippet + tail
  }

  /** The prompt for a stored Feedback quotes its snippet and has a bounded length. */
  lemma PromptIsBounded(f: Feedback)
    requires ValidFeedback(f)
    ensures |Prompt(f.rating, Snippet(f.text))| <= PromptTemplateLength + 2 + SnippetLimit + 1
  {
    assert |IntToString(f.rating)| == 1;
  }

  // ------------------------------------------------------- upstream response

  /** A JSON value as the endpoint may return it. */
  datatype Json =
    | JNull
    | JBool(b: bool)
    | JNumber(n: real)
    | JString(s: string)
    | JArray(items: seq<Json>)
    | JObject(fields: map<string, Json>)

  /** The endpoint's answer: the POST failed (network, timeout, error status), or its body. */
  datatype Upstream = CallFailed | Responded(data: Json)

  /** The exception a step of the flow can raise. */
  datatype Thrown = TypeError

  /** JavaScript truthiness of a property read, `None` standing for `undefined`. */
  predicate Truthy(v: Option<Json>)
  {
    match v
    case None => false
    case Some(JNull) => false
    case Some(JBool(b)) => b
    case Some(JNumber(n)) => n != 0.0
    case Some(JString(s)) => s != []
    case Some(_) => true
  }

  /** `v.generated_text` on a non-null value: only an object can carry the property. */
  function GeneratedText(v: Json): (r: Option<Json>)
    ensures r.Some? ==> v.JObject?
  {
    if v.JObject? && "generated_text" in v.fields then Some(v.fields["generated_text"]) else None
  }

  /** `String(...).split` exists only on strings: anything else raises a TypeError. */
  function AsText(v: Json): (r: Result<string, Thrown>)
    ensures r.Ok? <==> v.JString?
  {
    if v.JString? then Ok(v.s) else Err(TypeError)
  }

  /** `data[0]?.generated_text` when `data` is an array, `undefined` otherwise. */
  function FirstItemText(data: Json): (r: Option<Json>)
    ensures r.Some? ==> data.JArray? && |data.items| > 0 && r == GeneratedText(data.items[0])
  {
    if data.JArray? && |data.items| > 0 && !data.items[0].JNull? then GeneratedText(data.items[0]) else None
  }

  /**
   * The raw generated text: the body's own `generated_text` when it is truthy, else
   * the first array element's when that is truthy, else the empty string. Splitting
   * needs a string, so a truthy candidate of another kind raises a TypeError, and so
   * does reading a property of a `null` body.
   */
  function RawText(data: Json): (r: Result<string, Thrown>)
    ensures data.JNull? ==> r.Err?
    ensures !data.JNull? && Truthy(GeneratedText(data)) ==> r == AsText(GeneratedText(data).value)
    ensures !data.JNull? && !Truthy(GeneratedText(data)) && Truthy(FirstItemText(data)) ==> r == AsText(FirstItemText(data).value)
    ensures !data.JNull? && !Truthy(GeneratedText(data)) && !Truthy(FirstItemText(data)) ==> r == Ok("")
    ensures r.Ok? && r.value != [] ==> GeneratedText(data) == Some(JString(r.value))
                                       || FirstItemText(data) == Some(JString(r.value))
  {
    if data.JNull? then Err(TypeError)
    else if Truthy(GeneratedText(data)) then AsText(GeneratedText(data).value)
    else if Truthy(FirstItemText(data)) then AsText(FirstItemText(data).value)
    else Ok("")
  }

  // --------------------------------------------------- splitting the lines

  /** `/\n(?=\d\.)/` matches at `i`: a line feed followed by one digit and a period. */
  predicate SplitsAt(s: string, i: int)
  {
    0 <= i && i + 2 < |s| && s[i] == '\n' && IsDigit(s[i + 1]) && s[i + 2] == '.'
  }

  /** The first position from `from` on where the separator matches, or `|s|`. */
  function NextSeparator(s: string, from: nat): (k: nat)
    requires from <= |s|
    ensures from <= k <= |s|
    ensures k < |s| ==> SplitsAt(s, k)
    ensures forall j :: from <= j < k ==> !SplitsAt(s, j)
    decreases |s| - from
  {
    if from == |s| || SplitsAt(s, from) then from else NextSeparator(s, from + 1)
  }

  /** `s.split(/\n(?=\d\.)/)`: the pieces between separator matches, the line feeds dropped. */
  function SplitNumbered(s: string): (ps: seq<string>)
    ensures |ps| >= 1
    decreases |s|
  {
    var k := NextSeparator(s, 0);
    if k == |s| then [s] else [s[..k]] + SplitNumbered(s[k + 1..])
  }

  /** The pieces glued back together with the line feeds the split removed. */
  function JoinLines(ps: seq<string>): (s: string)
    requires |ps| >= 1
  {
    if |ps| == 1 then ps[0] else ps[0] + "\n" + JoinLines(ps[1..])
  }

  predicate HasNoSeparator(p: string)
  {
    forall j :: 0 <= j < |p| ==> !SplitsAt(p, j)
  }

  /** `p` begins with one digit and a period. */
  predicate StartsNumbered(p: string)
  {
    |p| >= 2 && IsDigit(p[0]) && p[1] == '.'
  }

  /**
   * The split described without reference to how it is computed: the pieces rejoin
   * to `s`, no piece contains a separator, and every piece after the first begins
   * with a digit and a period.
   */
  predicate IsNumberedSplit(ps: seq<string>, s: string)
  {
    && |ps| >= 1
    && JoinLines(ps) == s
    && (forall i :: 0 <= i < |ps| ==> HasNoSeparator(ps[i]))
    && (forall i :: 1 <= i < |ps| ==> StartsNumbered(ps[i]))
  }

  /** The text before the first separator contains none. */
  lemma HeadHasNoSeparator(s: string)
    ensures HasNoSeparator(s[..NextSeparator(s, 0)])
  {
    var k := NextSeparator(s, 0);
    var head := s[..k];
    forall j | 0 <= j < |head| ensures !SplitsAt(head, j) {
      if SplitsAt(head, j) {
        assert SplitsAt(s, j);
      }
    }
  }

  /** The first piece of a string that begins with a digit and a period begins with them too. */
  lemma FirstPieceStartsNumbered(t: string)
    requires StartsNumbered(t)
    ensures StartsNumbered(SplitNumbered(t)[0])
  {
    assert !SplitsAt(t, 0) && !SplitsAt(t, 1);
    assert NextSeparator(t, 0) == NextSeparator(t, 1);
    assert NextSeparator(t, 1) == NextSeparator(t, 2);
    var k := NextSeparator(t, 0);
    if k < |t| {
      var p := t[..k];
      assert SplitNumbered(t)[0] == p;
      assert p[0] == t[0] && p[1] == t[1];
    }
  }

  /** The text after a separator begins with the digit and the period the separator looked ahead to. */
  lemma TailStartsNumbered(s: string)
    requires NextSeparator(s, 0) < |s|
    ensures StartsNumbered(s[NextSeparator(s, 0) + 1..])
  {
    var k := NextSeparator(s, 0);
    var tail := s[k + 1..];
    assert tail[0] == s[k + 1] && tail[1] == s[k + 2];
  }

  lemma {:induction false} SplitNumberedIsNumberedSplit(s: string)
    ensures IsNumberedSplit(SplitNumbered(s), s)
    decreases |s|
  {
    var k := NextSeparator(s, 0);
    HeadHasNoSeparator(s);
    if k < |s| {
      var head, tail := s[..k], s[k + 1..];
      SplitNumberedIsNumberedSplit(tail);
      TailStartsNumbered(s);
      FirstPieceStartsNumbered(tail);
      var rest := SplitNumbered(tail);
      var ps := SplitNumbered(s);
      assert ps == [head] + rest;
      assert s == head + "\n" + tail;
      assert JoinLines(ps) == s by {
        assert ps[1..] == rest;
      }
      assert forall i :: 1 <= i < |ps| ==> ps[i] == rest[i - 1];
    }
  }

  /** A piece without a separator followed by a line feed and a numbered piece: the first match is that line feed. */
  lemma SeparatorAfterHead(head: string, tail: string)
    requires HasNoSeparator(head) && StartsNumbered(tail)
    ensures NextSeparator(head + "\n" + tail, 0) == |head|
  {
    var s := head + "\n" + tail;
    forall j | 0 <= j < |head| ensures !SplitsAt(s, j) {
      if j + 2 < |head| {
        assert !SplitsAt(head, j);
        assert s[j..j + 3] == head[j..j + 3];
      } else if j + 1 == |head| {
        assert s[j + 1] == '\n';
      } else {
        assert s[j + 2] == '\n';
      }
    }
    assert SplitsAt(s, |head|);
  }

  /** There is only one numbered split of a string, and `SplitNumbered` computes it. */
  lemma {:induction false} NumberedSplitIsUnique(ps: seq<string>, s: string)
    requires IsNumberedSplit(ps, s)
    ensures ps == SplitNumbered(s)
    decreases |ps|
  {
    if |ps| == 1 {
      assert NextSeparator(s, 0) == |s| by {
        assert HasNoSeparator(ps[0]);
      }
    } else {
      var tail := JoinLines(ps[1..]);
      assert s == ps[0] + "\n" + tail;
      assert IsNumberedSplit(ps[1..], tail) by {
        forall i | 0 <= i < |ps[1..]| ensures HasNoSeparator(ps[1..][i]) {
          assert ps[1..][i] == ps[i + 1];
        }
        forall i | 1 <= i < |ps[1..]| ensures StartsNumbered(ps[1..][i]) {
          assert ps[1..][i] == ps[i + 1];
        }
      }
      NumberedSplitIsUnique(ps[1..], tail);
      assert StartsNumbered(tail) by {
        assert ps[1] == ps[1..][0];
        if |ps[1..]| > 1 {
          assert tail == ps[1] + "\n" + JoinLines(ps[2..]);
          assert ps[1..][1..] == ps[2..];
        }
      }
      SeparatorAfterHead(ps[0], tail);
      assert s[..|ps[0]|] == ps[0];
      assert s[|ps[0]| + 1..] == tail;
    }
  }

  /** `SplitNumbered` is characterised by `IsNumberedSplit`, in both directions. */
  lemma SplitNumberedCharacterised(ps: seq<string>, s: string)
    ensures ps == SplitNumbered(s) <==> IsNumberedSplit(ps, s)
  {
    SplitNumberedIsNumberedSplit(s);
    if IsNumberedSplit(ps, s) {
      NumberedSplitIsUnique(ps, s);
    }
  }

  // ------------------------------------------------------ cleaning the lines

  /**
   * The marker removal: a line that begins with a digit and a period loses those two
   * characters and the white space after them; any other line is kept as it is.
   */
  function StripNumber(line: string): (r: string)
    ensures !StartsNumbered(line) ==> r == line
    ensures StartsNumbered(line) ==>
              && |r| <= |line| - 2 && line[|line| - |r|..] == r
              && AllWhitespace(line[2..|line| - |r|])
              && (r != [] ==> !IsWhitespace(r[0]))
  {
    if StartsNumbered(line) then
      var body := line[2..];
      LeadingMarginIsWhitespace(body);
      assert line[2..|line| - |TrimStart(body)|] == body[..SkipWhitespace(body, 0)];
      TrimStart(body)
    else line
  }

  /**
   * A cleaned line is the line with one leading `digit.` marker removed, if it has
   * one, and then trimmed: the white space after the marker is trimmed anyway.
   */
  function CleanLine(line: string): (r: string)
    ensures r == Trim(if StartsNumbered(line) then line[2..] else line)
    ensures IsTrimmed(r)
  {
    var body := if StartsNumbered(line) then line[2..] else line;
    TrimOfTrimStart(body);
    Trim(StripNumber(line))
  }

  /** `.map(CleanLine)`. */
  function CleanLines(ps: seq<string>): (cs: seq<string>)
    ensures |cs| == |ps|
    ensures forall i :: 0 <= i < |ps| ==> cs[i] == CleanLine(ps[i]) && IsTrimmed(cs[i])
  {
    if ps == [] then [] else [CleanLine(ps[0])] + CleanLines(ps[1..])
  }

  /** `.filter(Boolean)` on strings: the non-empty ones, in order. */
  function NonEmpty(xs: seq<string>): (r: seq<string>)
    ensures |r| <= |xs|
    ensures forall i :: 0 <= i < |r| ==> r[i] != [] && r[i] in xs
  {
    if xs == [] then []
    else if xs[0] == [] then NonEmpty(xs[1..])
    else [xs[0]] + NonEmpty(xs[1..])
  }

  /** `r` is `xs` read at the strictly increasing positions `idx`. */
  predicate ReadsAt(xs: seq<string>, r: seq<string>, idx: seq<int>)
  {
    && |idx| == |r|
    && (forall k :: 0 <= k < |idx| ==> 0 <= idx[k] < |xs| && r[k] == xs[idx[k]])
    && (forall k, l :: 0 <= k < l < |idx| ==> idx[k] < idx[l])
  }

  /** Every position of `xs` below `upto` that `idx` passes over holds the empty string. */
  predicate SkipsOnlyEmpty(xs: seq<string>, idx: seq<int>, upto: int)
  {
    forall j :: 0 <= j < upto && j < |xs| && j !in idx ==> xs[j] == []
  }

  /** Every position moved one place on. */
  function Shift(idx: seq<int>): (s: seq<int>)
    ensures |s| == |idx|
    ensures forall k :: 0 <= k < |idx| ==> s[k] == idx[k] + 1
  {
    if idx == [] then [] else [idx[0] + 1] + Shift(idx[1..])
  }

  /** The positions of the non-empty strings of `xs`, in increasing order. */
  function KeptPositions(xs: seq<string>): (idx: seq<int>)
    ensures |idx| <= |xs|
    decreases |xs|
  {
    if xs == [] then []
    else
      var rest := Shift(KeptPositions(xs[1..]));
      if xs[0] == [] then rest else [0] + rest
  }

  /** Reading the tail of `xs` at `idx` is reading `xs` at the positions one further on. */
  lemma ShiftedRead(xs: seq<string>, tail: seq<string>, r: seq<string>, idx: seq<int>, shifted: seq<int>)
    requires |xs| == |tail| + 1 && forall j :: 0 <= j < |tail| ==> tail[j] == xs[j + 1]
    requires ReadsAt(tail, r, idx)
    requires |shifted| == |idx| && forall k :: 0 <= k < |idx| ==> shifted[k] == idx[k] + 1
    ensures ReadsAt(xs, r, shifted)
    ensures forall k :: 0 <= k < |shifted| ==> shifted[k] >= 1
  {
    forall k | 0 <= k < |shifted| ensures 1 <= shifted[k] < |xs| && r[k] == xs[shifted[k]] {
      assert r[k] == tail[idx[k]];
    }
    forall k, l | 0 <= k < l < |shifted| ensures shifted[k] < shifted[l] {
      assert idx[k] < idx[l];
    }
  }

  /** A reading at positions from 1 on extends by the first string, read at position 0. */
  lemma ConsRead(xs: seq<string>, r: seq<string>, idx: seq<int>)
    requires xs != [] && ReadsAt(xs, r, idx)
    requires forall k :: 0 <= k < |idx| ==> idx[k] >= 1
    ensures ReadsAt(xs, [xs[0]] + r, [0] + idx)
  {
    var r', idx' := [xs[0]] + r, [0] + idx;
    assert forall k :: 1 <= k < |idx'| ==> idx'[k] == idx[k - 1] && r'[k] == r[k - 1];
  }

  /** The kept positions increase, and the filter reads exactly those positions. */
  lemma {:induction false} KeptPositionsRead(xs: seq<string>)
    ensures ReadsAt(xs, NonEmpty(xs), KeptPositions(xs))
    decreases |xs|
  {
    if xs != [] {
      var tail := xs[1..];
      var r, rest := NonEmpty(tail), KeptPositions(tail);
      KeptPositionsRead(tail);
      ShiftedRead(xs, tail, r, rest, Shift(rest));
      if xs[0] != [] {
        ConsRead(xs, r, Shift(rest));
      }
    }
  }

  /** Every position the kept positions pass over holds the empty string. */
  lemma {:induction false} KeptPositionsSkip(xs: seq<string>)
    ensures SkipsOnlyEmpty(xs, KeptPositions(xs), |xs|)
    decreases |xs|
  {
    if xs != [] {
      var tail := xs[1..];
      KeptPositionsSkip(tail);
      var rest := KeptPositions(tail);
      var idx := KeptPositions(xs);
      forall j | 1 <= j < |xs| && j !in idx ensures xs[j] == [] {
        assert xs[j] == tail[j - 1];
      }
    }
  }

  /**
   * The filter keeps order and drops only empty strings: its result is the input
   * read at increasing positions, and every position it passes over is empty.
   */
  lemma NonEmptyKeepsOrder(xs: seq<string>)
    ensures exists idx :: ReadsAt(xs, NonEmpty(xs), idx) && SkipsOnlyEmpty(xs, idx, |xs|)
  {
    KeptPositionsRead(xs);
    KeptPositionsSkip(xs);
  }

  /** Filtering leaves nothing exactly when every string is empty. */
  lemma {:induction false} NonEmptyIsEmptyIff(xs: seq<string>)
    ensures NonEmpty(xs) == [] <==> forall i :: 0 <= i < |xs| ==> xs[i] == []
    decreases |xs|
  {
    if xs != [] {
      NonEmptyIsEmptyIff(xs[1..]);
      assert forall i :: 1 <= i < |xs| ==> xs[i] == xs[1..][i - 1];
    }
  }

  /** The most suggestions the flow returns. */
  const MaxSuggestions: nat := 2

  /**
   * The pieces of a split, cleaned, without the empty ones, cut to two: the first
   * two non-empty cleaned pieces, or all of them when there are fewer.
   */
  function SelectSuggestions(ps: seq<string>): (r: seq<string>)
    ensures var kept := NonEmpty(CleanLines(ps));
            |r| == (if |kept| < MaxSuggestions then |kept| else MaxSuggestions) && r == kept[..|r|]
    ensures |r| <= MaxSuggestions
    ensures forall i :: 0 <= i < |r| ==> r[i] != [] && IsTrimmed(r[i])
  {
    var cleaned := CleanLines(ps);
    var kept := NonEmpty(cleaned);
    forall i | 0 <= i < |kept| ensures IsTrimmed(kept[i]) {
      var j :| 0 <= j < |cleaned| && cleaned[j] == kept[i];
    }
    if |kept| <= MaxSuggestions then kept else kept[..MaxSuggestions]
  }

  /**
   * The suggestions read from a generated text: split, clean, drop empties, keep the
   * first two. Each one is non-empty and trimmed.
   */
  function ParseSuggestions(raw: string): (r: seq<string>)
    ensures var kept := NonEmpty(CleanLines(SplitNumbered(raw)));
            |r| == (if |kept| < MaxSuggestions then |kept| else MaxSuggestions) && r == kept[..|r|]
    ensures |r| <= MaxSuggestions
    ensures forall i :: 0 <= i < |r| ==> r[i] != [] && IsTrimmed(r[i])
  {
    SelectSuggestions(SplitNumbered(raw))
  }

  /** The order the first kept strings of a filter have: the shape the selection of two takes. */
  ghost predicate KeepsFirst(xs: seq<string>, r: seq<string>)
  {
    exists idx :: ReadsAt(xs, r, idx)
                  && (|r| < MaxSuggestions ==> SkipsOnlyEmpty(xs, idx, |xs|))
                  && (|r| == MaxSuggestions ==> SkipsOnlyEmpty(xs, idx, idx[|r| - 1]))
  }

  /** Below the last of the first `n` increasing positions, the first `n` pass over no more than all do. */
  lemma PrefixSkipsOnlyEmpty(xs: seq<string>, all: seq<int>, n: nat)
    requires 0 < n <= |all|
    requires forall k, l :: 0 <= k < l < |all| ==> all[k] < all[l]
    requires SkipsOnlyEmpty(xs, all, |xs|)
    ensures SkipsOnlyEmpty(xs, all[..n], all[n - 1])
  {
    forall j | 0 <= j < all[n - 1] && j < |xs| && j !in all[..n] ensures xs[j] == [] {
      forall m | 0 <= m < |all| ensures all[m] != j {
        if m < n {
          assert all[..n][m] == all[m];
        } else {
          assert all[n - 1] < all[m];
        }
      }
    }
  }

  /**
   * When `kept` is `xs` read at increasing positions that pass over only empty
   * strings, its first two strings (or all, when there are fewer) are read at
   * increasing positions, and every position passed over before the last of them
   * holds the empty string.
   */
  lemma FirstKeptPositions(xs: seq<string>, kept: seq<string>, all: seq<int>, r: seq<string>)
    requires ReadsAt(xs, kept, all) && SkipsOnlyEmpty(xs, all, |xs|)
    requires |r| == (if |kept| < MaxSuggestions then |kept| else MaxSuggestions) && r == kept[..|r|]
    ensures KeepsFirst(xs, r)
  {
    var n := |r|;
    var idx := all[..n];
    assert ReadsAt(xs, r, idx) by {
      forall k | 0 <= k < n ensures idx[k] == all[k] { }
    }
    if n < MaxSuggestions {
      assert idx == all;
      assert SkipsOnlyEmpty(xs, idx, |xs|);
    } else {
      PrefixSkipsOnlyEmpty(xs, all, n);
      assert SkipsOnlyEmpty(xs, idx, idx[n - 1]);
    }
  }

  /**
   * The suggestions are the cleaned pieces of the split at increasing positions, and
   * every piece passed over cleans to the empty string: all of them when fewer than
   * two suggestions are read, the ones before the second suggestion otherwise.
   */
  lemma SuggestionsArePieces(raw: string)
    ensures KeepsFirst(CleanLines(SplitNumbered(raw)), ParseSuggestions(raw))
  {
    var cleaned := CleanLines(SplitNumbered(raw));
    KeptPositionsRead(cleaned);
    KeptPositionsSkip(cleaned);
    FirstKeptPositions(cleaned, NonEmpty(cleaned), KeptPositions(cleaned), ParseSuggestions(raw));
  }

  /** No suggestion is read exactly when every piece of the split cleans to the empty string. */
  lemma NoSuggestionsIff(raw: string)
    ensures ParseSuggestions(raw) == [] <==> forall p :: p in SplitNumbered(raw) ==> CleanLine(p) == []
  {
    var pieces := SplitNumbered(raw);
    var cleaned := CleanLines(pieces);
    assert ParseSuggestions(raw) == [] <==> NonEmpty(cleaned) == [];
    NonEmptyIsEmptyIff(cleaned);
    assert (forall i :: 0 <= i < |cleaned| ==> cleaned[i] == [])
           <==> forall p :: p in pieces ==> CleanLine(p) == [] by {
      if forall i :: 0 <= i < |cleaned| ==> cleaned[i] == [] {
        forall p | p in pieces ensures CleanLine(p) == [] {
          var i :| 0 <= i < |pieces| && pieces[i] == p;
          assert cleaned[i] == [];
        }
      }
    }
  }

  /** A digit, a period and a line without line feeds: one numbered piece, cleaned to the trimmed line. */
  lemma NumberedPiece(d: char, a: string)
    requires IsDigit(d) && '\n' !in a
    ensures var p := [d, '.'] + a;
            HasNoSeparator(p) && StartsNumbered(p) && CleanLine(p) == Trim(a)
  {
    var p := [d, '.'] + a;
    forall j | 0 <= j < |p| ensures p[j] != '\n' {
      if j >= 2 { assert p[j] == a[j - 2]; }
    }
    assert p[2..] == a;
  }

  /** Two pieces joined by a line feed split back into those two pieces when the second is numbered. */
  lemma SplitOfTwo(p0: string, p1: string)
    requires HasNoSeparator(p0) && HasNoSeparator(p1) && StartsNumbered(p1)
    ensures SplitNumbered(p0 + "\n" + p1) == [p0, p1]
  {
    assert JoinLines([p0, p1]) == p0 + "\n" + p1 by {
      assert [p0, p1][1..] == [p1];
    }
    NumberedSplitIsUnique([p0, p1], p0 + "\n" + p1);
  }

  /** Filtering a list without empty strings changes nothing. */
  lemma {:induction false} NonEmptyKeepsAll(xs: seq<string>)
    requires forall i :: 0 <= i < |xs| ==> xs[i] != []
    ensures NonEmpty(xs) == xs
    decreases |xs|
  {
    if xs != [] {
      NonEmptyKeepsAll(xs[1..]);
      assert [xs[0]] + xs[1..] == xs;
    }
  }

  /** Two pieces that both clean to something are both kept, cleaned. */
  lemma SelectTwoPieces(p0: string, p1: string)
    requires CleanLine(p0) != [] && CleanLine(p1) != []
    ensures SelectSuggestions([p0, p1]) == [CleanLine(p0), CleanLine(p1)]
  {
    var cleaned := [CleanLine(p0), CleanLine(p1)];
    assert CleanLines([p0, p1]) == cleaned by {
      var cs := CleanLines([p0, p1]);
      assert cs[0] == cleaned[0] && cs[1] == cleaned[1];
    }
    assert NonEmpty(cleaned) == cleaned by {
      NonEmptyKeepsAll(cleaned);
    }
  }

  /** The filter keeps a non-empty first string in front of what it keeps of the rest. */
  lemma NonEmptyCons(x: string, xs: seq<string>)
    requires x != []
    ensures NonEmpty([x] + xs) == [x] + NonEmpty(xs)
  {
    assert ([x] + xs)[1..] == xs;
  }

  /** Three strings whose first two are not empty: the first two kept are those two. */
  lemma FirstTwoOfThree(c0: string, c1: string, c2: string)
    requires c0 != [] && c1 != []
    ensures |NonEmpty([c0, c1, c2])| >= MaxSuggestions
    ensures NonEmpty([c0, c1, c2])[..MaxSuggestions] == [c0, c1]
  {
    assert [c0, c1, c2] == [c0] + ([c1] + [c2]);
    NonEmptyCons(c1, [c2]);
    NonEmptyCons(c0, [c1] + [c2]);
    assert NonEmpty([c0, c1, c2]) == [c0, c1] + NonEmpty([c2]);
  }

  /** Of three pieces whose first two clean to something, the third is cut off. */
  lemma SelectThreePieces(p0: string, p1: string, p2: string)
    requires CleanLine(p0) != [] && CleanLine(p1) != []
    ensures SelectSuggestions([p0, p1, p2]) == [CleanLine(p0), CleanLine(p1)]
  {
    var c0, c1, c2 := CleanLine(p0), CleanLine(p1), CleanLine(p2);
    assert CleanLines([p0, p1, p2]) == [c0, c1, c2] by {
      var cs := CleanLines([p0, p1, p2]);
      assert cs[0] == c0 && cs[1] == c1 && cs[2] == c2;
    }
    FirstTwoOfThree(c0, c1, c2);
  }

  /** A line without line feeds contains no separator. */
  lemma SingleLine(a: string)
    requires '\n' !in a
    ensures HasNoSeparator(a)
  {
    forall j | 0 <= j < |a| ensures !SplitsAt(a, j) {
      assert a[j] in a;
    }
  }

  /** Three pieces glued back together. */
  lemma JoinThree(p0: string, p1: string, p2: string)
    ensures JoinLines([p0, p1, p2]) == p0 + "\n" + p1 + "\n" + p2
  {
    assert [p0, p1, p2][1..] == [p1, p2];
    assert [p1, p2][1..] == [p2];
    assert JoinLines([p1, p2]) == p1 + "\n" + p2;
    assert p0 + "\n" + (p1 + "\n" + p2) == p0 + "\n" + p1 + "\n" + p2;
  }

  /** Three pieces joined by line feeds split back into those pieces when the last two are numbered. */
  lemma SplitOfThree(p0: string, p1: string, p2: string)
    requires HasNoSeparator(p0) && HasNoSeparator(p1) && HasNoSeparator(p2)
    requires StartsNumbered(p1) && StartsNumbered(p2)
    ensures SplitNumbered(p0 + "\n" + p1 + "\n" + p2) == [p0, p1, p2]
  {
    var ps, s := [p0, p1, p2], p0 + "\n" + p1 + "\n" + p2;
    assert IsNumberedSplit(ps, s) by {
      JoinThree(p0, p1, p2);
      assert forall i :: 0 <= i < |ps| ==> HasNoSeparator(ps[i]);
      assert forall i :: 1 <= i < |ps| ==> StartsNumbered(ps[i]);
    }
    NumberedSplitIsUnique(ps, s);
  }

  /**
   * A first line without a number takes one of the two places: for "a\nd.b\nd.c" with
   * the first two lines not blank, the suggestions are the first line and the first
   * numbered one, and the last is dropped.
   */
  lemma UnnumberedLineTakesASlot(a: string, d1: char, b: string, d2: char, c: string)
    requires IsDigit(d1) && IsDigit(d2)
    requires '\n' !in a && '\n' !in b && '\n' !in c
    requires !StartsNumbered(a)
    requires !AllWhitespace(a) && !AllWhitespace(b)
    ensures ParseSuggestions(a + "\n" + [d1, '.'] + b + "\n" + [d2, '.'] + c) == [Trim(a), Trim(b)]
  {
    var p1, p2 := [d1, '.'] + b, [d2, '.'] + c;
    var raw := a + "\n" + [d1, '.'] + b + "\n" + [d2, '.'] + c;
    assert raw == a + "\n" + p1 + "\n" + p2;
    SingleLine(a);
    NumberedPiece(d1, b);
    NumberedPiece(d2, c);
    assert SplitNumbered(raw) == [a, p1, p2] by {
      SplitOfThree(a, p1, p2);
    }
    assert CleanLine(a) != [] && CleanLine(p1) != [] by {
      TrimEmptyIff(a);
      TrimEmptyIff(b);
    }
    SelectThreePieces(a, p1, p2);
  }

  /**
   * Two numbered lines come back as the two lines without their numbers: for any
   * digits and any line texts without line feeds that are not blank.
   */
  lemma TwoNumberedLines(d1: char, a: string, d2: char, b: string)
    requires IsDigit(d1) && IsDigit(d2)
    requires '\n' !in a && '\n' !in b
    requires !AllWhitespace(a) && !AllWhitespace(b)
    ensures ParseSuggestions([d1, '.'] + a + "\n" + [d2, '.'] + b) == [Trim(a), Trim(b)]
  {
    var p0, p1 := [d1, '.'] + a, [d2, '.'] + b;
    var raw := [d1, '.'] + a + "\n" + [d2, '.'] + b;
    assert raw == p0 + "\n" + p1;
    NumberedPiece(d1, a);
    NumberedPiece(d2, b);
    assert SplitNumbered(raw) == [p0, p1] by {
      SplitOfTwo(p0, p1);
    }
    assert CleanLine(p0) != [] && CleanLine(p1) != [] by {
      TrimEmptyIff(a);
      TrimEmptyIff(b);
    }
    SelectTwoPieces(p0, p1);
  }

  /** One space before a trimmed word is trimmed away. */
  lemma TrimSpaceBefore(w: string)
    requires w != [] && IsTrimmed(w)
    ensures Trim([' '] + w) == w
  {
    var s := [' '] + w;
    assert SkipWhitespace(s, 0) == 1 by {
      assert s[1] == w[0];
    }
    assert TrimStart(s) == w;
    TrimOfTrimStart(s);
  }

  /** The example of the controller's tests: `"1. A\n2. B"` becomes `["A", "B"]`. */
  lemma ShortExample()
    ensures ParseSuggestions("1. A\n2. B") == ["A", "B"]
  {
    var a, b := " A", " B";
    assert ['1', '.'] + a + "\n" + ['2', '.'] + b == "1. A\n2. B";
    assert a == [' '] + "A" && b == [' '] + "B";
    TrimSpaceBefore("A");
    TrimSpaceBefore("B");
    assert !AllWhitespace(a) && !AllWhitespace(b) by {
      assert !IsWhitespace(a[1]) && !IsWhitespace(b[1]);
    }
    TwoNumberedLines('1', a, '2', b);
  }

  /** The three lines of the example below: single lines, the first unnumbered, the trimmed texts. */
  lemma PreambleLines()
    ensures '\n' !in "Sure!" && '\n' !in " Thanks" && '\n' !in " Great"
    ensures !StartsNumbered("Sure!") && !AllWhitespace("Sure!") && !AllWhitespace(" Thanks")
    ensures Trim("Sure!") == "Sure!" && Trim(" Thanks") == "Thanks"
  {
    var a, b := "Sure!", " Thanks";
    assert IsTrimmed(a);
    assert b == [' '] + "Thanks" && IsTrimmed("Thanks");
    TrimSpaceBefore("Thanks");
    assert !IsWhitespace(a[0]) && !IsWhitespace(b[1]);
  }

  /**
   * A reply that opens with a line of its own: `"Sure!\n1. Thanks\n2. Great"` gives
   * `["Sure!", "Thanks"]`, not the two numbered lines.
   */
  lemma PreambleExample()
    ensures ParseSuggestions("Sure!\n1. Thanks\n2. Great") == ["Sure!", "Thanks"]
  {
    var a, b, c := "Sure!", " Thanks", " Great";
    assert a + "\n" + ['1', '.'] + b + "\n" + ['2', '.'] + c == "Sure!\n1. Thanks\n2. Great";
    PreambleLines();
    UnnumberedLineTakesASlot(a, '1', b, '2', c);
  }

  /** An empty generated text splits into one empty piece, so no suggestion is read. */
  lemma EmptyTextNoSuggestions()
    ensures ParseSuggestions("") == []
  {
    assert SplitNumbered("") == [""];
  }

  // ---------------------------------------------------------------- fallback

  /** How the fallback names the rating: the number, or "N/A" when no Feedback was read. */
  function RatingLabel(rating: Option<int>): (name: string)
  {
    match rating
    case Some(n) => IntToString(n)
    case None => "N/A"
  }

  const FallbackOpening := "Thank you for giving us a "
  const FallbackFirstClosing := "-star rating. We appreciate your feedback."
  const FallbackSecondClosing := "-star rating. We\U{2019}ll use this to improve."

  /** The two templated replies, each naming the rating. */
  function FallbackSuggestions(rating: Option<int>): (r: seq<string>)
    ensures |r| == MaxSuggestions
  {
    var ratingText := RatingLabel(rating);
    [FallbackOpening + ratingText + FallbackFirstClosing, FallbackOpening + ratingText + FallbackSecondClosing]
  }

  /** A fallback reply is the opening, then the rating's text, then a closing. */
  lemma FallbackReplyShape(ratingText: string, closing: string)
    ensures var reply := FallbackOpening + ratingText + closing;
            |reply| >= |FallbackOpening| && reply[..|FallbackOpening|] == FallbackOpening
            && reply[|FallbackOpening|..] == ratingText + closing
  {
    var reply := FallbackOpening + ratingText + closing;
    assert reply == FallbackOpening + (ratingText + closing);
  }

  /**
   * The rating can be read back out of each fallback reply: `Number.parseInt` of the
   * text after the opening gives the rating, and NaN when the label is "N/A".
   */
  lemma FallbackNamesRating(rating: Option<int>, i: nat)
    requires i < MaxSuggestions
    ensures var reply := FallbackSuggestions(rating)[i];
            |reply| > |FallbackOpening| && reply[..|FallbackOpening|] == FallbackOpening
            && ParseInt(reply[|FallbackOpening|..]) == rating
  {
    var ratingText := RatingLabel(rating);
    var closing := if i == 0 then FallbackFirstClosing else FallbackSecondClosing;
    assert closing[0] == '-';
    FallbackReplyShape(ratingText, closing);
    assert FallbackSuggestions(rating)[i] == FallbackOpening + ratingText + closing;
    match rating
    case Some(n) =>
      ParseIntOfIntToString(n, closing);
    case None =>
      assert ratingText[0] == 'N';
      ParseIntNaN(ratingText + closing);
  }

  /** The two fallback replies differ, and the second carries the curly apostrophe U+2019. */
  lemma FallbackRepliesDiffer(rating: Option<int>)
    ensures FallbackSuggestions(rating)[0] != FallbackSuggestions(rating)[1]
    ensures '\U{2019}' in FallbackSuggestions(rating)[1]
  {
    var ratingText := RatingLabel(rating);
    var r := FallbackSuggestions(rating);
    var at := |FallbackOpening| + |ratingText| + 16;
    assert r[1][at] == '\U{2019}';
    assert r[0][at] != r[1][at];
  }

  // -------------------------------------------------------------- the flow

  /** `Feedback.findById(id).lean()`: it threw, found nothing, or found a document. */
  datatype Lookup = LookupFailed | NotFound | Found(feedback: Feedback)

  /** The JSON response of the handler. */
  datatype SuggestionResponse =
    | FeedbackNotFound                        // 404 {success: false, message}
    | Generated(suggestions: seq<string>)     // 200 {success: true, suggestions}
    | Fallback(suggestions: seq<string>)      // 200 {success: true, suggestions, isFallback: true}
  {
    function Status(): int
    {
      if FeedbackNotFound? then 404 else 200
    }

    predicate Success()
    {
      !FeedbackNotFound?
    }

    /** The `isFallback` key: absent except on the fallback path. */
    function IsFallback(): Option<bool>
    {
      if Fallback? then Some(true) else None
    }

    function Message(): Option<string>
    {
      if FeedbackNotFound? then Some("Feedback not found") else None
    }
  }

  /**
   * The response of `getAIReplySuggestions`. Not-found is answered inside the `try`,
   * so it never reaches the fallback; a call that fails, or a response whose text
   * cannot be split, falls back with the rating; a lookup that throws falls back with
   * "N/A". A response that yields no lines is a success with no suggestions, not a
   * fallback.
   */
  function Respond(lookup: Lookup, upstream: Upstream): (r: SuggestionResponse)
    ensures r.FeedbackNotFound? <==> lookup.NotFound?
    ensures r.Fallback? <==> (lookup.LookupFailed?
                              || (lookup.Found? && (upstream.CallFailed? || RawText(upstream.data).Err?)))
    ensures r.Fallback? ==>
              r.suggestions == FallbackSuggestions(if lookup.Found? then Some(lookup.feedback.rating) else None)
    ensures r.Generated? ==>
              upstream.Responded? && RawText(upstream.data).Ok?
              && r.suggestions == ParseSuggestions(RawText(upstream.data).value)
    ensures r.Success() ==> |r.suggestions| <= MaxSuggestions
  {
    match lookup
    case LookupFailed => Fallback(FallbackSuggestions(None))
    case NotFound => FeedbackNotFound
    case Found(f) =>
      match upstream
      case CallFailed => Fallback(FallbackSuggestions(Some(f.rating)))
      case Responded(data) =>
        match RawText(data)
        case Err(_) => Fallback(FallbackSuggestions(Some(f.rating)))
        case Ok(raw) => Generated(ParseSuggestions(raw))
  }

  /** The prompt posted upstream: only for a found Feedback, a prompt made of its rating and its snippet. */
  function PostedPrompt(lookup: Lookup): (p: Option<string>)
    ensures p.Some? <==> lookup.Found?
    ensures lookup.Found? ==> p.value == Prompt(lookup.feedback.rating, Snippet(lookup.feedback.text))
    ensures lookup.Found? ==> |p.value| <= PromptTemplateLength + 2 * |IntToString(lookup.feedback.rating)|
                                              + SnippetLimit + 1
  {
    match lookup
    case Found(f) => Some(Prompt(f.rating, Snippet(f.text)))
    case _ => None
  }

  /** An absent Feedback: 404, `success: false`, "Feedback not found", nothing posted, no fallback. */
  lemma NotFoundAnswer(upstream: Upstream)
    ensures PostedPrompt(NotFound) == None
    ensures var r := Respond(NotFound, upstream);
            r.Status() == 404 && !r.Success() && r.Message() == Some("Feedback not found") && r.IsFallback() == None
  {
  }

  /** Any failure after a successful lookup gives exactly the two templated replies for its rating. */
  lemma FailureFallsBack(f: Feedback, upstream: Upstream)
    requires upstream.CallFailed? || RawText(upstream.data).Err?
    ensures var r := Respond(Found(f), upstream);
            && r.Status() == 200 && r.Success() && r.IsFallback() == Some(true)
            && |r.suggestions| == 2
            && forall i :: 0 <= i < 2 ==> ParseInt(r.suggestions[i][|FallbackOpening|..]) == Some(f.rating)
  {
    FallbackNamesRating(Some(f.rating), 0);
    FallbackNamesRating(Some(f.rating), 1);
  }

  /** A lookup that throws still answers 200 with the fallback, and the replies name no rating. */
  lemma LookupFailureFallsBack(upstream: Upstream)
    ensures var r := Respond(LookupFailed, upstream);
            && r.Status() == 200 && r.IsFallback() == Some(true)
            && forall i :: 0 <= i < 2 ==> ParseInt(r.suggestions[i][|FallbackOpening|..]) == None
  {
    FallbackNamesRating(None, 0);
    FallbackNamesRating(None, 1);
  }

  /** A response whose text yields no line is a success with an empty list and no `isFallback` key. */
  lemma EmptyParseIsNotFallback(f: Feedback, data: Json)
    requires RawText(data).Ok? && ParseSuggestions(RawText(data).value) == []
    ensures var r := Respond(Found(f), Responded(data));
            r == Generated([]) && r.Success() && r.IsFallback() == None
  {
  }

  /** A `null` body or a non-string `generated_text` raises inside the `try`, so it falls back. */
  lemma MalformedBodyFallsBack(f: Feedback, v: Json)
    requires Truthy(Some(v)) && !v.JString?
    ensures Respond(Found(f), Responded(JNull)) == Fallback(FallbackSuggestions(Some(f.rating)))
    ensures Respond(Found(f), Responded(JObject(map["generated_text" := v])))
            == Fallback(FallbackSuggestions(Some(f.rating)))
  {
    assert GeneratedText(JObject(map["generated_text" := v])) == Some(v);
  }

  /** The array shape: the text of the first element is read when the body has none of its own. */
  lemma ArrayShapeIsRead(f: Feedback, text: string)
    ensures var body := JArray([JObject(map["generated_text" := JString(text)])]);
            Respond(Found(f), Responded(body)) == Generated(ParseSuggestions(text))
  {
    var item := JObject(map["generated_text" := JString(text)]);
    assert GeneratedText(item) == Some(JString(text));
    assert RawText(JArray([item])) == Ok(text) by {
      assert FirstItemText(JArray([item])) == Some(JString(text));
    }
  }
}
