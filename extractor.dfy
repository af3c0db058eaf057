/** Picking the media URIs out of a POST body so that they can be logged. Each URI is
    found by the pattern `<Tag>([^<]+)</Tag>`: the opening tag, a non-empty run of
    characters none of which is '<', and the closing tag; only the leftmost match
    counts, and the run is reported with surrounding white space trimmed. */
module Extractor {
  import opened Common

  /** A run the pattern's `[^<]+` can capture. */
  predicate NoLt(s: string)
  {
    forall i | 0 <= i < |s| :: s[i] != '<'
  }

  /** A match of `open (run) close` starting at index `start` of `text`, capturing `run`. */
  predicate Match(text: string, open: string, close: string, start: nat, run: string)
  {
    var from := start + |open|;
    var to := from + |run|;
    run != [] && NoLt(run) && to + |close| <= |text|
    && text[start..from] == open && text[from..to] == run && text[to..to + |close|] == close
  }

  /** Where the longest run without '<' beginning at `from` ends. */
  function RunEnd(text: string, from: nat): (k: nat)
    requires from <= |text|
    ensures from <= k <= |text|
    ensures forall j | from <= j < k :: text[j] != '<'
    ensures k < |text| ==> text[k] == '<'
    decreases |text| - from
  {
    if from == |text| || text[from] == '<' then from else RunEnd(text, from + 1)
  }

  /** Whether the pattern matches at `start`. Because the closing tag begins with '<',
      the run can only be the longest run without '<' after the opening tag. */
  predicate MatchesAt(text: string, open: string, close: string, start: nat)
  {
    var from := start + |open|;
    from <= |text| && text[start..from] == open
    && var k := RunEnd(text, from);
    from < k && k + |close| <= |text| && text[k..k + |close|] == close
  }

  /** The run captured at `start` by a match there. */
  function CapturedAt(text: string, open: string, close: string, start: nat): string
    requires MatchesAt(text, open, close, start)
  {
    text[start + |open|..RunEnd(text, start + |open|)]
  }

  /** A match found: where it starts and the run it captured. */
  datatype Capture = Capture(start: nat, run: string)

  /** `MatchesAt` decides exactly the matches at `start`, and the capture it finds is
      the only one there. */
  lemma MatchesAtIff(text: string, open: string, close: string, start: nat, run: string)
    requires close != [] && close[0] == '<'
    ensures MatchesAt(text, open, close, start) ==> Match(text, open, close, start, CapturedAt(text, open, close, start))
    ensures Match(text, open, close, start, run) ==> MatchesAt(text, open, close, start) && run == CapturedAt(text, open, close, start)
  {
    var from := start + |open|;
    if MatchesAt(text, open, close, start) {
      var k := RunEnd(text, from);
      var c := CapturedAt(text, open, close, start);
      assert |c| == k - from;
      assert forall j | 0 <= j < |c| :: c[j] == text[from + j];
    }
    if Match(text, open, close, start, run) {
      var to := from + |run|;
      assert text[to] == close[0];
      assert forall j | from <= j < to :: text[j] == run[j - from];
      RunEndAt(text, from, to);
    }
  }

  /** The run ends at the first '<' after `from`. */
  lemma {:induction false} RunEndAt(text: string, from: nat, to: nat)
    requires from <= to < |text|
    requires forall j | from <= j < to :: text[j] != '<'
    requires text[to] == '<'
    ensures RunEnd(text, from) == to
    decreases |text| - from
  {
    if from < to {
      RunEndAt(text, from + 1, to);
    }
  }

  /** The leftmost match at or after `start`. */
  function FindFrom(text: string, open: string, close: string, start: nat): (r: Option<Capture>)
    requires close != [] && close[0] == '<'
    requires start <= |text|
    ensures r.Some? ==> start <= r.value.start && Match(text, open, close, r.value.start, r.value.run)
    ensures r.Some? ==> forall i, run | start <= i < r.value.start :: !Match(text, open, close, i, run)
    ensures r.None? ==> forall i, run | start <= i :: !Match(text, open, close, i, run)
    decreases |text| - start
  {
    if MatchesAt(text, open, close, start) then
      MatchesAtIff(text, open, close, start, []);
      Some(Capture(start, CapturedAt(text, open, close, start)))
    else
      NoMatchAt(text, open, close, start);
      if start == |text| then
        assert forall i, run | start <= i :: !Match(text, open, close, i, run) by {
          forall i, run | start <= i ensures !Match(text, open, close, i, run) {
            if i > start { assert i + |open| > |text|; }
          }
        }
        None
      else
        FindFrom(text, open, close, start + 1)
  }

  /** Where `MatchesAt` fails there is no match at all at that index. */
  lemma NoMatchAt(text: string, open: string, close: string, start: nat)
    requires close != [] && close[0] == '<'
    requires !MatchesAt(text, open, close, start)
    ensures forall run :: !Match(text, open, close, start, run)
  {
    forall run | Match(text, open, close, start, run) ensures false {
      MatchesAtIff(text, open, close, start, run);
    }
  }

  /** The leftmost match of `open (run) close` in `text`, if there is one. */
  function Find(text: string, open: string, close: string): (r: Option<Capture>)
    requires close != [] && close[0] == '<'
    ensures r.Some? ==> Match(text, open, close, r.value.start, r.value.run)
    ensures r.Some? ==> forall i, run | 0 <= i < r.value.start :: !Match(text, open, close, i, run)
    ensures r.None? <==> forall i, run | 0 <= i :: !Match(text, open, close, i, run)
  {
    FindFrom(text, open, close, 0)
  }

  const CURRENT_URI_OPEN := "<CurrentURI>"
  const CURRENT_URI_CLOSE := "</CurrentURI>"
  const NEXT_URI_OPEN := "<NextURI>"
  const NEXT_URI_CLOSE := "</NextURI>"

  /** Rust's `char::is_whitespace`: the characters with the Unicode White_Space
      property. */
  predicate IsWhiteSpace(c: char)
  {
    var n := c as int;
    (0x09 <= n <= 0x0D) || n == 0x20 || n == 0x85 || n == 0xA0 || n == 0x1680
    || (0x2000 <= n <= 0x200A) || n == 0x2028 || n == 0x2029 || n == 0x202F
    || n == 0x205F || n == 0x3000
  }

  /** `str::trim_start`: drops the leading white space. */
  function TrimStart(s: string): (r: string)
    ensures |r| <= |s| && r == s[|s| - |r|..]
    ensures forall i | 0 <= i < |s| - |r| :: IsWhiteSpace(s[i])
    ensures r == [] || !IsWhiteSpace(r[0])
  {
    if s != [] && IsWhiteSpace(s[0]) then
      var r := TrimStart(s[1..]);
      assert s[1..][|s| - 1 - |r|..] == s[|s| - |r|..];
      r
    else s
  }

  /** `str::trim_end`: drops the trailing white space. */
  function TrimEnd(s: string): (r: string)
    ensures |r| <= |s| && r == s[..|r|]
    ensures forall i | |r| <= i < |s| :: IsWhiteSpace(s[i])
    ensures r == [] || !IsWhiteSpace(r[|r| - 1])
  {
    if s != [] && IsWhiteSpace(s[|s| - 1]) then TrimEnd(s[..|s| - 1]) else s
  }

  /** `str::trim`. */
  function Trim(s: string): string
  {
    TrimEnd(TrimStart(s))
  }

  /** Trimming leaves a slice of the text that neither begins nor ends with white
      space, and removes nothing but white space. */
  lemma TrimSlice(s: string) returns (a: nat)
    ensures a + |Trim(s)| <= |s| && Trim(s) == s[a..a + |Trim(s)|]
    ensures forall i | 0 <= i < a :: IsWhiteSpace(s[i])
    ensures forall i | a + |Trim(s)| <= i < |s| :: IsWhiteSpace(s[i])
  {
    var t := TrimStart(s);
    a := |s| - |t|;
    SliceOfSuffix(s, t, TrimEnd(t), a);
  }

  /** A prefix of a suffix is a slice, and what the prefix leaves of the suffix is the
      end of the whole. */
  lemma SliceOfSuffix(s: string, t: string, r: string, a: nat)
    requires a <= |s| && t == s[a..]
    requires |r| <= |t| && r == t[..|r|]
    requires forall i | |r| <= i < |t| :: IsWhiteSpace(t[i])
    ensures a + |r| <= |s| && r == s[a..a + |r|]
    ensures forall i | a + |r| <= i < |s| :: IsWhiteSpace(s[i])
  {
    forall i | a + |r| <= i < |s| ensures IsWhiteSpace(s[i]) {
      assert s[i] == t[i - a];
    }
  }

  /** What trimming leaves neither begins nor ends with white space. */
  lemma TrimEnds(s: string)
    ensures Trim(s) == [] || (!IsWhiteSpace(Trim(s)[0]) && !IsWhiteSpace(Trim(s)[|Trim(s)| - 1]))
  {
    var t := TrimStart(s);
    var r := TrimEnd(t);
    if r != [] {
      assert r[0] == t[0];
    }
  }

  /** Trimming twice is trimming once. */
  lemma TrimIdempotent(s: string)
    ensures Trim(Trim(s)) == Trim(s)
  {
    var r := Trim(s);
    TrimEnds(s);
    if r != [] {
      assert TrimStart(r) == r;
      assert TrimEnd(r) == r;
    }
  }

  /** A trimmed run keeps the run's freedom from '<'. */
  lemma TrimNoLt(s: string)
    requires NoLt(s)
    ensures NoLt(Trim(s))
  {
    var a := TrimSlice(s);
    var r := Trim(s);
    assert forall i | 0 <= i < |r| :: r[i] == s[a + i];
  }

  /** The line logged for a capture, if any. */
  function Entry(heading: string, c: Option<Capture>): seq<string>
  {
    if c.Some? then [heading + Trim(c.value.run)] else []
  }

  const CURRENT_LABEL := "Current URI: "
  const NEXT_LABEL := "Next URI: "

  function CurrentUri(text: string): (r: Option<Capture>)
  {
    Find(text, CURRENT_URI_OPEN, CURRENT_URI_CLOSE)
  }

  function NextUri(text: string): (r: Option<Capture>)
  {
    Find(text, NEXT_URI_OPEN, NEXT_URI_CLOSE)
  }

  /** What is logged for a body posted to `path`: on `/AVTransport` the current URI's
      line if one is found, then the next URI's line if one is found; elsewhere
      nothing. */
  function Extracted(path: string, text: string): seq<string>
  {
    if path == "/AVTransport" then Entry(CURRENT_LABEL, CurrentUri(text)) + Entry(NEXT_LABEL, NextUri(text))
    else []
  }

  /** Collects the lines to log, one conditional push per pattern. */
  method Extract(path: string, text: string) returns (result: seq<string>)
    ensures result == Extracted(path, text)
  {
    result := [];
    if path == "/AVTransport" {
      var current := CurrentUri(text);
      if current.Some? {
        result := result + [CURRENT_LABEL + Trim(current.value.run)];
      }
      assert result == Entry(CURRENT_LABEL, current);
      var next := NextUri(text);
      if next.Some? {
        result := result + [NEXT_LABEL + Trim(next.value.run)];
      }
    }
  }

  /** The two labels cannot be confused: no current-URI line is a next-URI line. */
  lemma LabelsDistinct(a: string, b: string)
    ensures !(NEXT_LABEL <= CURRENT_LABEL + a)
    ensures !(CURRENT_LABEL <= NEXT_LABEL + b)
  {
    assert (CURRENT_LABEL + a)[0] == 'C';
    assert (NEXT_LABEL + b)[0] == 'N';
  }

  /** A path other than `/AVTransport` logs nothing. */
  lemma OtherPathsLogNothing(path: string, text: string)
    requires path != "/AVTransport"
    ensures Extracted(path, text) == []
  {
  }

  /** At most two lines are logged; the current URI's comes first. */
  lemma AtMostTwoInOrder(path: string, text: string)
    ensures |Extracted(path, text)| <= 2
    ensures |Extracted(path, text)| == 2 ==> CURRENT_LABEL <= Extracted(path, text)[0] && NEXT_LABEL <= Extracted(path, text)[1]
  {
  }

  /** Some logged line begins with `heading`. */
  predicate HasLine(lines: seq<string>, heading: string)
  {
    exists k | 0 <= k < |lines| :: heading <= lines[k]
  }

  /** Whether the body has a match of `open (run) close` anywhere. */
  ghost predicate Occurs(text: string, open: string, close: string)
  {
    exists i, run | 0 <= i :: Match(text, open, close, i, run)
  }

  /** A current-URI line is logged for `/AVTransport` exactly when the body holds
      `<CurrentURI>`, a non-empty run without '<' and `</CurrentURI>`, whatever it says
      about the next URI. */
  lemma CurrentUriLogged(text: string)
    ensures HasLine(Extracted("/AVTransport", text), CURRENT_LABEL) <==> Occurs(text, CURRENT_URI_OPEN, CURRENT_URI_CLOSE)
  {
    var ls := Extracted("/AVTransport", text);
    var c := CurrentUri(text);
    var n := NextUri(text);
    if n.Some? {
      LabelsDistinct([], Trim(n.value.run));
    }
    if c.Some? {
      assert CURRENT_LABEL <= ls[0];
      assert Match(text, CURRENT_URI_OPEN, CURRENT_URI_CLOSE, c.value.start, c.value.run);
    } else {
      assert ls == Entry(NEXT_LABEL, n);
    }
  }

  /** Likewise a next-URI line is logged exactly when the body holds `<NextURI>`, a
      non-empty run without '<' and `</NextURI>`, whatever it says about the current
      URI. */
  lemma NextUriLogged(text: string)
    ensures HasLine(Extracted("/AVTransport", text), NEXT_LABEL) <==> Occurs(text, NEXT_URI_OPEN, NEXT_URI_CLOSE)
  {
    var ls := Extracted("/AVTransport", text);
    var c := CurrentUri(text);
    var n := NextUri(text);
    if c.Some? {
      LabelsDistinct(Trim(c.value.run), []);
    }
    if n.Some? {
      assert NEXT_LABEL <= ls[|ls| - 1];
      assert Match(text, NEXT_URI_OPEN, NEXT_URI_CLOSE, n.value.start, n.value.run);
    } else {
      assert ls == Entry(CURRENT_LABEL, c);
    }
  }

  /** The leftmost match is the one `Find` returns. */
  lemma LeftmostFound(text: string, open: string, close: string, i: nat, run: string)
    requires close != [] && close[0] == '<'
    requires Match(text, open, close, i, run)
    requires forall j, other | 0 <= j < i :: !Match(text, open, close, j, other)
    ensures Find(text, open, close) == Some(Capture(i, run))
  {
    var r := Find(text, open, close);
    assert r.Some?;
    assert r.value.start == i;
    MatchesAtIff(text, open, close, i, run);
    MatchesAtIff(text, open, close, i, r.value.run);
  }

  /** The current-URI line reports the trimmed run of the leftmost match, and only
      that one. */
  lemma CurrentUriReported(text: string, i: nat, run: string)
    requires Match(text, CURRENT_URI_OPEN, CURRENT_URI_CLOSE, i, run)
    requires forall j, other | 0 <= j < i :: !Match(text, CURRENT_URI_OPEN, CURRENT_URI_CLOSE, j, other)
    ensures var ls := Extracted("/AVTransport", text); ls != [] && ls[0] == CURRENT_LABEL + Trim(run)
  {
    LeftmostFound(text, CURRENT_URI_OPEN, CURRENT_URI_CLOSE, i, run);
  }

  /** The next-URI line, the last one, reports the trimmed run of the leftmost match
      of its own pattern. */
  lemma NextUriReported(text: string, i: nat, run: string)
    requires Match(text, NEXT_URI_OPEN, NEXT_URI_CLOSE, i, run)
    requires forall j, other | 0 <= j < i :: !Match(text, NEXT_URI_OPEN, NEXT_URI_CLOSE, j, other)
    ensures var ls := Extracted("/AVTransport", text); ls != [] && ls[|ls| - 1] == NEXT_LABEL + Trim(run)
  {
    LeftmostFound(text, NEXT_URI_OPEN, NEXT_URI_CLOSE, i, run);
  }

  /** The reported value, trimmed, holds no '<'. */
  lemma LoggedValueHasNoLt(text: string, open: string, close: string)
    requires close != [] && close[0] == '<'
    requires Find(text, open, close).Some?
    ensures NoLt(Trim(Find(text, open, close).value.run))
  {
    TrimNoLt(Find(text, open, close).value.run);
  }

  /** A tag pair around a run without '<' is a match wherever it stands. */
  lemma MatchInside(before: string, open: string, run: string, close: string, after: string)
    requires run != [] && NoLt(run)
    ensures Match(before + open + run + close + after, open, close, |before|, run)
  {
    var text := before + open + run + close + after;
    var from := |before| + |open|;
    var to := from + |run|;
    assert text[|before|..from] == open;
    assert text[from..to] == run;
    assert text[to..to + |close|] == close;
  }

  /** Text that neither begins nor ends with white space is kept by trimming. */
  lemma TrimKeeps(s: string)
    requires s == [] || (!IsWhiteSpace(s[0]) && !IsWhiteSpace(s[|s| - 1]))
    ensures Trim(s) == s
  {
  }

  /** A body opening with `<CurrentURI>`, a run without '<' or surrounding white
      space, and `</CurrentURI>` logs that run first, verbatim. */
  lemma LeadingCurrentUri(uri: string, rest: string)
    requires uri != [] && NoLt(uri) && !IsWhiteSpace(uri[0]) && !IsWhiteSpace(uri[|uri| - 1])
    ensures var ls := Extracted("/AVTransport", CURRENT_URI_OPEN + uri + CURRENT_URI_CLOSE + rest);
      ls != [] && ls[0] == CURRENT_LABEL + uri
  {
    MatchInside([], CURRENT_URI_OPEN, uri, CURRENT_URI_CLOSE, rest);
    assert [] + CURRENT_URI_OPEN == CURRENT_URI_OPEN;
    CurrentUriReported(CURRENT_URI_OPEN + uri + CURRENT_URI_CLOSE + rest, 0, uri);
    TrimKeeps(uri);
  }

  /** The case the code is documented with: `<CurrentURI>https://my-secret.com</CurrentURI>`. */
  lemma DocumentedExample(rest: string)
    ensures var ls := Extracted("/AVTransport", CURRENT_URI_OPEN + "https://my-secret.com" + CURRENT_URI_CLOSE + rest);
      ls != [] && ls[0] == CURRENT_LABEL + "https://my-secret.com"
  {
    var uri := "https://my-secret.com";
    assert NoLt(uri);
    LeadingCurrentUri(uri, rest);
  }
}
