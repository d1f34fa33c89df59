/**
 * Picking the JSON text out of a free-form model answer (sem_analysis.py `_extract_json_object`
 * and the array extraction inside `_call_llm_json_array`).
 *
 * The two regular expressions of the source are stated as a substring selection: the leftmost
 * start position where the pattern matches, and at that start the shortest body, because the
 * body's repetition is lazy. `json.loads` is the parameter `parse`, whose failure carries the
 * decoder's message.
 */
module JsonExtraction {
  import opened Wrappers
  import opened Strings

  /** A value produced by `json.loads`. */
  datatype Json =
    | JNull
    | JBool(b: bool)
    | JNum(n: real)
    | JStr(s: string)
    | JArr(items: seq<Json>)
    | JObj(fields: map<string, Json>)

  type Parser = string -> Result<Json, string>

  const EmptyResponse: string := "Empty LLM response"
  const NoObjectFound: string := "No JSON object found in LLM response"
  const NoArrayFound: string := "No JSON array found in LLM response"

  /** Three backticks start at `i`. */
  predicate TicksAt(text: string, i: int) {
    0 <= i && i + 3 <= |text| && text[i] == '`' && text[i + 1] == '`' && text[i + 2] == '`'
  }

  /** "```json", with the tag compared without regard to case, starts at `i`. */
  predicate JsonTagAt(text: string, i: int) {
    TicksAt(text, i) && i + 7 <= |text|
    && ToLower(text[i + 3]) == 'j' && ToLower(text[i + 4]) == 's'
    && ToLower(text[i + 5]) == 'o' && ToLower(text[i + 6]) == 'n'
  }

  /** The index after the run of whitespace that starts at `j` (the greedy `\s*`). */
  function SkipSpace(text: string, j: nat): (k: nat)
    requires j <= |text|
    ensures j <= k <= |text|
    ensures k < |text| ==> !IsSpace(text[k])
    decreases |text| - j
  {
    if j < |text| && IsSpace(text[j]) then SkipSpace(text, j + 1) else j
  }

  /** The index after the run of ASCII letters that starts at `j` (the greedy `[a-zA-Z]*`). */
  function SkipLetters(text: string, j: nat): (k: nat)
    requires j <= |text|
    ensures j <= k <= |text|
    ensures k < |text| ==> !IsLetter(text[k])
    decreases |text| - j
  {
    if j < |text| && IsLetter(text[j]) then SkipLetters(text, j + 1) else j
  }

  /**
   * Where the captured group starts when the fence opening matches at `s`:
   * "```json" (any case) or "```" plus a letter tag, then whitespace, then `open`.
   * Neither letters nor whitespace can stand for `open`, so backtracking finds no other start.
   */
  function OpenAt(text: string, s: nat, tagged: bool, open: char): (b: Option<nat>)
    requires s <= |text|
    requires !IsSpace(open) && !IsLetter(open)
    ensures b.Some? ==> s < b.value < |text| && text[b.value] == open
  {
    var after :=
      if tagged then (if JsonTagAt(text, s) then Some(s + 7) else None)
      else (if TicksAt(text, s) then Some(SkipLetters(text, s + 3)) else None);
    match after
    case None => None
    case Some(j) =>
      var b := SkipSpace(text, j);
      if b < |text| && text[b] == open then Some(b) else None
  }

  /** `close` at `e` is followed by whitespace and "```": the pattern's tail matches there. */
  predicate ClosesAt(text: string, e: int, close: char) {
    0 <= e < |text| && text[e] == close && TicksAt(text, SkipSpace(text, e + 1))
  }

  /** The smallest `e >= from` where the tail matches (the lazy `[\s\S]*?`). */
  function FirstClose(text: string, from: nat, close: char): (r: Option<nat>)
    requires from <= |text|
    ensures r.Some? ==> from <= r.value && ClosesAt(text, r.value, close)
    ensures r.Some? ==> forall e :: from <= e < r.value ==> !ClosesAt(text, e, close)
    ensures r.None? ==> forall e :: from <= e ==> !ClosesAt(text, e, close)
    decreases |text| - from
  {
    if from == |text| then None
    else if ClosesAt(text, from, close) then Some(from)
    else FirstClose(text, from + 1, close)
  }

  /** The pattern matches with the match starting at `s` and the group spanning `b..e`. */
  predicate FenceMatch(text: string, tagged: bool, open: char, close: char, s: nat, b: nat, e: nat)
    requires !IsSpace(open) && !IsLetter(open)
  {
    s <= |text| && OpenAt(text, s, tagged, open) == Some(b) && b < e && ClosesAt(text, e, close)
  }

  /** A match found by `re.search`: where it starts and where its group begins and ends. */
  datatype Fence = Fence(start: nat, first: nat, last: nat)

  /** The search stops at `from`: the fence opens there and a tail follows later. */
  predicate StopsAt(text: string, from: nat, tagged: bool, open: char, close: char)
    requires from <= |text|
    requires !IsSpace(open) && !IsLetter(open)
  {
    match OpenAt(text, from, tagged, open)
    case None => false
    case Some(b) => FirstClose(text, b + 1, close).Some?
  }

  /** The positions up to the end of the text where the search stops. */
  function Stops(text: string, tagged: bool, open: char, close: char): nat -> bool
    requires !IsSpace(open) && !IsLetter(open)
  {
    (s: nat) => s <= |text| && StopsAt(text, s, tagged, open, close)
  }

  /** The first position from `from` up to `end` where `stops` holds. */
  function FirstStop(stops: nat -> bool, from: nat, end: nat): (r: Option<nat>)
    requires from <= end
    ensures r.Some? ==> from <= r.value <= end && stops(r.value)
    ensures forall s :: from <= s <= end && (r.None? || s < r.value) ==> !stops(s)
    decreases end - from
  {
    if stops(from) then Some(from)
    else if from < end then FirstStop(stops, from + 1, end)
    else None
  }

  /**
   * `re.search` of the fence pattern from position `from`: the leftmost start with a match and,
   * there, the shortest group.
   */
  function FindFence(text: string, from: nat, tagged: bool, open: char, close: char): (r: Option<Fence>)
    requires from <= |text|
    requires !IsSpace(open) && !IsLetter(open)
    ensures r.Some? ==> (r.value.first < r.value.last < |text|
      && text[r.value.first] == open && text[r.value.last] == close)
    ensures r.Some? ==> from <= r.value.start
  {
    match FirstStop(Stops(text, tagged, open, close), from, |text|)
    case None => None
    case Some(s) =>
      assert StopsAt(text, s, tagged, open, close);
      var b := OpenAt(text, s, tagged, open).value;
      Some(Fence(s, b, FirstClose(text, b + 1, close).value))
  }

  /** What the search finds is a match, and at its start the group is the shortest one. */
  lemma FindFenceSound(text: string, from: nat, tagged: bool, open: char, close: char)
    requires from <= |text|
    requires !IsSpace(open) && !IsLetter(open)
    ensures var r := FindFence(text, from, tagged, open, close);
      r.Some? ==> (FenceMatch(text, tagged, open, close, r.value.start, r.value.first, r.value.last)
        && (forall e :: r.value.first < e < r.value.last ==> !ClosesAt(text, e, close)))
  {
    var stop := FirstStop(Stops(text, tagged, open, close), from, |text|);
    if stop.Some? {
      assert StopsAt(text, stop.value, tagged, open, close);
    }
  }

  /** Where the search cannot stop, no match starts. */
  lemma NoStopNoMatch(text: string, s: nat, tagged: bool, open: char, close: char)
    requires s <= |text|
    requires !IsSpace(open) && !IsLetter(open)
    requires !StopsAt(text, s, tagged, open, close)
    ensures forall b, e :: !FenceMatch(text, tagged, open, close, s, b, e)
  {
  }

  /** The match found is the leftmost one, and no match is found only when there is none. */
  lemma FindFenceLeftmost(text: string, from: nat, tagged: bool, open: char, close: char)
    requires from <= |text|
    requires !IsSpace(open) && !IsLetter(open)
    ensures var r := FindFence(text, from, tagged, open, close);
      forall s, b, e :: from <= s && (r.None? || s < r.value.start) ==>
        !FenceMatch(text, tagged, open, close, s, b, e)
  {
    var r := FindFence(text, from, tagged, open, close);
    var stops := Stops(text, tagged, open, close);
    var stop := FirstStop(stops, from, |text|);
    assert r.None? <==> stop.None?;
    assert r.Some? ==> r.value.start == stop.value;
    forall s, b, e | from <= s && (r.None? || s < r.value.start)
      ensures !FenceMatch(text, tagged, open, close, s, b, e)
    {
      if s <= |text| {
        assert !stops(s);
        NoStopNoMatch(text, s, tagged, open, close);
      }
    }
  }

  /** Some `open` character stands strictly before some `close` character. */
  predicate HasPair(text: string, open: char, close: char) {
    exists i, j :: 0 <= i < j < |text| && text[i] == open && text[j] == close
  }

  /** `text[text.find(open) : text.rfind(close) + 1]` when both exist in that order. */
  function Slice(text: string, open: char, close: char): (r: Option<string>)
    ensures r.Some? <==> HasPair(text, open, close)
    ensures r.Some? ==> |r.value| >= 2 && r.value[0] == open && r.value[|r.value| - 1] == close
  {
    match (Find(text, open), RFind(text, close))
    case (Some(a), Some(z)) =>
      if z > a then Some(text[a..z + 1])
      else
        assert forall k :: 0 <= k < a ==> text[k] != open by {
          forall k | 0 <= k < a ensures text[k] != open { assert text[..a][k] == text[k]; }
        }
        assert forall k :: z < k < |text| ==> text[k] != close by {
          forall k | z < k < |text| ensures text[k] != close { assert text[z + 1..][k - z - 1] == text[k]; }
        }
        None
    case _ => None
  }

  /** The text `_extract_json_object` hands to `json.loads`, if any. */
  function ObjectCandidate(text: string): (r: Option<string>)
    ensures r.Some? ==> |r.value| >= 2 && r.value[0] == '{' && r.value[|r.value| - 1] == '}'
  {
    var tagged := FencedGroup(text, true, '{', '}');
    if tagged.Some? then tagged
    else
      var bare := FencedGroup(text, false, '{', '}');
      if bare.Some? then bare else Slice(text, '{', '}')
  }

  /** The group of the first fence match in the text, if there is one. */
  function FencedGroup(text: string, tagged: bool, open: char, close: char): (r: Option<string>)
    requires !IsSpace(open) && !IsLetter(open)
    ensures r.None? <==> FindFence(text, 0, tagged, open, close).None?
    ensures r.Some? ==> |r.value| >= 2 && r.value[0] == open && r.value[|r.value| - 1] == close
  {
    match FindFence(text, 0, tagged, open, close)
    case Some(f) => Some(text[f.first..f.last + 1])
    case None => None
  }

  /**
   * `_extract_json_object(text)`: `Err` carries the message of the exception raised. An empty
   * text and a text where no `{` precedes a `}` raise their own messages; otherwise the result
   * is whatever `json.loads` makes of the candidate.
   */
  function ExtractJsonObject(text: string, parse: Parser): (r: Result<Json, string>)
    ensures text == [] ==> r == Err(EmptyResponse)
    ensures text != [] && !HasPair(text, '{', '}') ==> r == Err(NoObjectFound)
    ensures text != [] && HasPair(text, '{', '}') ==>
      ObjectCandidate(text).Some? && r == parse(ObjectCandidate(text).value)
  {
    ObjectNotFoundIff(text);
    if text == [] then Err(EmptyResponse)
    else match ObjectCandidate(text)
      case Some(c) => parse(c)
      case None => Err(NoObjectFound)
  }

  /** The text the array extraction hands to `json.loads`: a "```json" fence or a `[`..`]` slice. */
  function ArrayCandidate(text: string): (r: Option<string>)
    ensures r.Some? ==> |r.value| >= 2 && r.value[0] == '[' && r.value[|r.value| - 1] == ']'
  {
    match FencedGroup(text, true, '[', ']')
    case Some(g) => Some(g)
    case None => Slice(text, '[', ']')
  }

  /**
   * The extraction step of `_call_llm_json_array` (a missing text counts as ""): "No JSON
   * array found" exactly when no `[` precedes a `]`, and otherwise whatever `json.loads`
   * makes of the candidate.
   */
  function ExtractJsonArray(text: string, parse: Parser): (r: Result<Json, string>)
    ensures !HasPair(text, '[', ']') ==> r == Err(NoArrayFound)
    ensures HasPair(text, '[', ']') ==> ArrayCandidate(text).Some? && r == parse(ArrayCandidate(text).value)
  {
    ArrayNotFoundIff(text);
    match ArrayCandidate(text)
    case Some(c) => parse(c)
    case None => Err(NoArrayFound)
  }

  /** A fence's group always runs from an `open` to a later `close`. */
  lemma FenceHasPair(text: string, open: char, close: char, f: Fence)
    requires f.first < f.last < |text| && text[f.first] == open && text[f.last] == close
    ensures HasPair(text, open, close)
  {
  }

  /** There is no object candidate exactly when no `{` stands before a `}`. */
  lemma ObjectNotFoundIff(text: string)
    ensures ObjectCandidate(text).None? <==> !HasPair(text, '{', '}')
  {
    var tagged := FindFence(text, 0, true, '{', '}');
    var any := FindFence(text, 0, false, '{', '}');
    if tagged.Some? {
      FenceHasPair(text, '{', '}', tagged.value);
    } else if any.Some? {
      FenceHasPair(text, '{', '}', any.value);
    }
  }

  /** The same for arrays: no candidate exactly when no `[` stands before a `]`. */
  lemma ArrayNotFoundIff(text: string)
    ensures ArrayCandidate(text).None? <==> !HasPair(text, '[', ']')
  {
    var tagged := FindFence(text, 0, true, '[', ']');
    if tagged.Some? {
      FenceHasPair(text, '[', ']', tagged.value);
    }
  }

  /**
   * A "```json" fence takes priority over everything else in the text: the candidate is the
   * group of the first such fence, even when another fence or a brace comes earlier.
   */
  lemma TaggedFenceFirst(text: string, s: nat, b: nat, e: nat)
    requires FenceMatch(text, true, '{', '}', s, b, e)
    requires forall s': nat, b': nat, e': nat :: s' < s ==> !FenceMatch(text, true, '{', '}', s', b', e')
    requires forall e' :: b < e' < e ==> !ClosesAt(text, e', '}')
    ensures ObjectCandidate(text) == Some(text[b..e + 1])
  {
    FindFenceIs(text, true, '{', '}', s, b, e);
  }

  /** Without a "```json" fence, the first fence with any letter tag comes before brace slicing. */
  lemma AnyFenceSecond(text: string, s: nat, b: nat, e: nat)
    requires forall s': nat, b': nat, e': nat :: !FenceMatch(text, true, '{', '}', s', b', e')
    requires FenceMatch(text, false, '{', '}', s, b, e)
    requires forall s': nat, b': nat, e': nat :: s' < s ==> !FenceMatch(text, false, '{', '}', s', b', e')
    requires forall e' :: b < e' < e ==> !ClosesAt(text, e', '}')
    ensures ObjectCandidate(text) == Some(text[b..e + 1])
  {
    FindFenceNone(text, true, '{', '}');
    FindFenceIs(text, false, '{', '}', s, b, e);
  }

  /** Without any fence, the candidate runs from the first `{` to the last `}`. */
  lemma BraceSliceLast(text: string, a: nat, z: nat)
    requires forall s': nat, b': nat, e': nat :: !FenceMatch(text, true, '{', '}', s', b', e')
    requires forall s': nat, b': nat, e': nat :: !FenceMatch(text, false, '{', '}', s', b', e')
    requires a < z < |text| && text[a] == '{' && text[z] == '}'
    requires forall k :: 0 <= k < a ==> text[k] != '{'
    requires forall k :: z < k < |text| ==> text[k] != '}'
    ensures ObjectCandidate(text) == Some(text[a..z + 1])
  {
    FindFenceNone(text, true, '{', '}');
    FindFenceNone(text, false, '{', '}');
    assert Find(text, '{') == Some(a);
    assert RFind(text, '}') == Some(z);
  }

  /** With no match anywhere, the search finds nothing. */
  lemma FindFenceNone(text: string, tagged: bool, open: char, close: char)
    requires !IsSpace(open) && !IsLetter(open)
    requires forall s': nat, b': nat, e': nat :: !FenceMatch(text, tagged, open, close, s', b', e')
    ensures FindFence(text, 0, tagged, open, close).None?
  {
    FindFenceSound(text, 0, tagged, open, close);
  }

  /** The leftmost match, with its shortest group, is what the search finds. */
  lemma FindFenceIs(text: string, tagged: bool, open: char, close: char, s: nat, b: nat, e: nat)
    requires !IsSpace(open) && !IsLetter(open)
    requires FenceMatch(text, tagged, open, close, s, b, e)
    requires forall s': nat, b': nat, e': nat :: s' < s ==> !FenceMatch(text, tagged, open, close, s', b', e')
    requires forall e' :: b < e' < e ==> !ClosesAt(text, e', close)
    ensures FindFence(text, 0, tagged, open, close) == Some(Fence(s, b, e))
  {
    FindFenceLeftmost(text, 0, tagged, open, close);
    FindFenceSound(text, 0, tagged, open, close);
    var f := FindFence(text, 0, tagged, open, close).value;
    assert f.start == s;
    assert f.first == b;
    FirstCloseUnique(text, close, b, f.last, e);
  }

  /** Two positions that are each the first tail after `b` are the same. */
  lemma FirstCloseUnique(text: string, close: char, b: nat, e1: nat, e2: nat)
    requires b < e1 && ClosesAt(text, e1, close) && forall e' :: b < e' < e1 ==> !ClosesAt(text, e', close)
    requires b < e2 && ClosesAt(text, e2, close) && forall e' :: b < e' < e2 ==> !ClosesAt(text, e', close)
    ensures e1 == e2
  {
    assert b < e1 < e2 ==> !ClosesAt(text, e1, close);
    assert b < e2 < e1 ==> !ClosesAt(text, e2, close);
  }

  /** The text that `SkipSpace` stops at lies before any non-blank position. */
  lemma {:induction false} SkipSpaceStops(text: string, j: nat, k: nat)
    requires j <= k < |text| && !IsSpace(text[k])
    ensures SkipSpace(text, j) <= k
    decreases k - j
  {
    if j < k && IsSpace(text[j]) {
      SkipSpaceStops(text, j + 1, k);
    }
  }

  /** An answer that is nothing but a "```json" fence around an object gives that object's parse. */
  lemma FencedObjectAlone(body: string, parse: Parser)
    requires '`' !in body && |body| >= 2 && body[0] == '{' && body[|body| - 1] == '}'
    ensures ExtractJsonObject("```json\n" + body + "\n```", parse) == parse(body)
  {
    FencedObjectRoundTrip("", body, "", parse);
    assert "" + "```json\n" + body + "\n```" + "" == "```json\n" + body + "\n```";
  }

  /**
   * Round trip: a `{`..`}` text written in a "```json" fence between prose without backticks
   * is exactly what the parser receives, so the extraction yields what the parser yields.
   */
  lemma FencedObjectRoundTrip(pre: string, body: string, post: string, parse: Parser)
    requires '`' !in pre && '`' !in body
    requires |body| >= 2 && body[0] == '{' && body[|body| - 1] == '}'
    ensures ExtractJsonObject(pre + "```json\n" + body + "\n```" + post, parse) == parse(body)
  {
    var text := pre + "```json\n" + body + "\n```" + post;
    var p := |pre|;
    var b := p + 8;
    var e := b + |body| - 1;
    FencedLayout(text, pre, body, post);
    FencedOpens(text, p);
    FencedCloses(text, e);
    assert FenceMatch(text, true, '{', '}', p, b, e);
    forall s': nat, b': nat, e': nat | s' < p ensures !FenceMatch(text, true, '{', '}', s', b', e') {
      assert text[s'] == pre[s'];
    }
    NoCloseInside(text, b, e, body);
    TaggedFenceFirst(text, p, b, e);
  }

  /** Inside a group without backticks, no `}` is followed by a closing fence. */
  lemma NoCloseInside(text: string, b: nat, e: nat, body: string)
    requires b <= e < |text| && text[b..e + 1] == body && '`' !in body && text[e] == '}'
    ensures forall e' :: b < e' < e ==> !ClosesAt(text, e', '}')
  {
    forall e' | b < e' < e ensures !ClosesAt(text, e', '}') {
      SkipSpaceStops(text, e' + 1, e);
      var k := SkipSpace(text, e' + 1);
      assert text[k] == body[k - b];
      assert text[k] != '`';
    }
  }

  /** Where the pieces of a fenced text lie. */
  lemma FencedLayout(text: string, pre: string, body: string, post: string)
    requires text == pre + "```json\n" + body + "\n```" + post && body != []
    ensures var p, e := |pre|, |pre| + 8 + |body| - 1;
      text[..p] == pre && text[p + 8..e + 1] == body
      && text[p..p + 8] == "```json\n" && text[e + 1..e + 5] == "\n```"
  {
  }

  /** A "```json" line opens the fence, and the group starts on the next line. */
  lemma FencedOpens(text: string, p: nat)
    requires p + 9 <= |text| && text[p..p + 8] == "```json\n" && text[p + 8] == '{'
    ensures OpenAt(text, p, true, '{') == Some(p + 8)
  {
    assert text[p + 7] == '\n';
    assert SkipSpace(text, p + 8) == p + 8;
    assert SkipSpace(text, p + 7) == p + 8;
  }

  /** A `}` with "```" on the next line closes the fence. */
  lemma FencedCloses(text: string, e: nat)
    requires e + 5 <= |text| && text[e] == '}' && text[e + 1..e + 5] == "\n```"
    ensures ClosesAt(text, e, '}')
  {
    assert text[e + 1] == '\n' && text[e + 2] == '`';
    assert SkipSpace(text, e + 2) == e + 2;
    assert SkipSpace(text, e + 1) == e + 2;
  }
}
