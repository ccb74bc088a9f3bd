/**
 * The pure parts of `logItinerary` in utils/logger.js: the sanitised
 * destinations, the rewritten timestamp, the file name built from them and
 * the markdown text written to the file. The clock and the file system are
 * left to the caller: timestamps come in as strings.
 */
module Logger {
  import opened JsValues
  import Strings

  /** The characters `/[^a-zA-Z0-9_]/g` leaves alone. */
  predicate IsSafeChar(c: char)
  {
    ('a' <= c <= 'z') || ('A' <= c <= 'Z') || ('0' <= c <= '9') || c == '_'
  }

  /** `destinations.join('_')` with every character outside `[A-Za-z0-9_]` deleted, where the join returns. */
  function SafeDest(destinations: seq<JsValue>): (r: string)
    requires !ToStringThrows(Arr(destinations))
    ensures |r| <= |JoinValues(destinations, "_")|
    ensures forall i :: 0 <= i < |r| ==> IsSafeChar(r[i])
  {
    Strings.Filter(JoinValues(destinations, "_"), IsSafeChar)
  }

  /** The characters `/[:.]/g` matches. */
  const TimestampMarks: set<char> := {':', '.'}

  /**
   * `timestamp.replace(/[:.]/g, '-')`: the same length, no `:` or `.` left,
   * and every other character where it was.
   */
  function RewriteTimestamp(timestamp: string): (r: string)
    ensures |r| == |timestamp|
    ensures ':' !in r && '.' !in r
    ensures forall i :: 0 <= i < |timestamp| ==>
      r[i] == if timestamp[i] in TimestampMarks then '-' else timestamp[i]
  {
    Strings.ReplaceCharsPointwise(timestamp, TimestampMarks, '-');
    Strings.ReplaceChars(timestamp, TimestampMarks, '-')
  }

  /**
   * `itinerary_${safeDest}_${timestamp}.md`. It holds a `/` exactly when the
   * timestamp does, so with an ISO timestamp `path.join(logsDir, filename)`
   * stays in the logs directory; its only `.` is the one of the `.md` extension.
   */
  function Filename(destinations: seq<JsValue>, timestamp: string): (r: string)
    requires !ToStringThrows(Arr(destinations))
    ensures ('/' in r) <==> ('/' in timestamp)
    ensures |r| >= 3 && r[|r| - 3..] == ".md"
    ensures forall i :: 0 <= i < |r| - 3 ==> r[i] != '.'
  {
    NameShape(SafeDest(destinations), timestamp);
    "itinerary_" + SafeDest(destinations) + "_" + RewriteTimestamp(timestamp) + ".md"
  }

  lemma NameShape(safe: string, timestamp: string)
    requires forall i :: 0 <= i < |safe| ==> IsSafeChar(safe[i])
    ensures var r := "itinerary_" + safe + "_" + RewriteTimestamp(timestamp) + ".md";
      && (('/' in r) <==> ('/' in timestamp))
      && |r| >= 3 && r[|r| - 3..] == ".md"
      && forall i :: 0 <= i < |r| - 3 ==> r[i] != '.'
  {
    var stamp := RewriteTimestamp(timestamp);
    var front := "itinerary_" + safe + "_";
    var stem := front + stamp;
    var r := stem + ".md";
    assert r[..|stem|] == stem && r[|r| - 3..] == ".md";
    assert forall i :: 0 <= i < |front| ==> front[i] != '.' && front[i] != '/';
    assert forall i :: 0 <= i < |stamp| ==> stem[|front| + i] == stamp[i];
    if '/' in timestamp {
      var i :| 0 <= i < |timestamp| && timestamp[i] == '/';
      assert r[|front| + i] == '/';
    }
  }

  const ContentHeading := "# Travel Itinerary\n\n**Date:** "

  /** The pieces of the markdown text, interpolations already converted, in order. */
  function ContentParts(
    localDate: string, destinations: string, preferences: string, budget: string, itinerary: string): seq<string>
  {
    [ContentHeading, localDate,
     "\n\n**Destinations:** ", destinations,
     "\n\n**Preferences:** ", preferences,
     "\n\n**Budget:** ", "$" + budget,
     "\n\n---\n\n", itinerary]
  }

  /** The markdown template literal over its already converted interpolations. */
  function ContentText(
    localDate: string, destinations: string, preferences: string, budget: string, itinerary: string): (r: string)
    ensures Strings.OccursAt(ContentHeading, r, 0) && Strings.OccursAt(localDate, r, |ContentHeading|)
  {
    var parts := ContentParts(localDate, destinations, preferences, budget, itinerary);
    Strings.PartOccurs(parts, 0);
    Strings.PartOccurs(parts, 1);
    assert parts[..1] == [ContentHeading];
    Strings.ConcatPair(ContentHeading, "");
    Strings.Concat(parts)
  }

  /**
   * The markdown text written to the file, where its conversions return; it
   * opens with the heading and `localDate`, which is `new Date().toLocaleString()`.
   */
  function Content(
    localDate: string, destinations: seq<JsValue>, preferences: JsValue, budget: JsValue,
    itinerary: string): (r: string)
    requires !ToStringThrows(Arr(destinations)) && !ToStringThrows(preferences) && !ToStringThrows(budget)
    ensures Strings.OccursAt(ContentHeading, r, 0) && Strings.OccursAt(localDate, r, |ContentHeading|)
  {
    ContentText(localDate, JoinValues(destinations, ", "), ToJsString(preferences), ToJsString(budget), itinerary)
  }

  /** The file `logItinerary` writes: its name in the logs directory and its text. */
  datatype LogFile = LogFile(name: string, content: string)

  /**
   * `logItinerary` up to the write: `Throw` when `destinations` is not an
   * array (a JSON value other than an array has no callable `join`), or
   * `destinations.join` or a `${…}` conversion throws; the returned promise
   * then rejects. Otherwise the file, whose name stays in the logs directory
   * for a timestamp without `/` and whose text opens with the heading and
   * the date, names the request's values and ends with the itinerary.
   */
  function LogItinerary(
    destinations: JsValue, preferences: JsValue, budget: JsValue, itinerary: string,
    isoTime: string, localDate: string): (r: Completion<LogFile>)
    ensures r.Throw? <==>
      !destinations.Arr? || ToStringThrows(destinations) || ToStringThrows(preferences) || ToStringThrows(budget)
    ensures r.Normal? ==> r.value.name == Filename(destinations.elems, isoTime)
    ensures r.Normal? ==> r.value.content == Content(localDate, destinations.elems, preferences, budget, itinerary)
    ensures r.Normal? ==> var name := r.value.name;
      && (('/' in name) <==> ('/' in isoTime))
      && |name| >= 3 && name[|name| - 3..] == ".md"
      && forall i :: 0 <= i < |name| - 3 ==> name[i] != '.'
    ensures r.Normal? ==> var c, tail := r.value.content, "\n\n---\n\n" + itinerary;
      && Strings.OccursAt(ContentHeading, c, 0) && Strings.OccursAt(localDate, c, |ContentHeading|)
      && Strings.IsInfix(JoinValues(destinations.elems, ", "), c)
      && Strings.IsInfix(ToJsString(preferences), c)
      && Strings.IsInfix("$" + ToJsString(budget), c)
      && |tail| <= |c| && c[|c| - |tail|..] == tail
  {
    if !destinations.Arr? || ToStringThrows(destinations) then Throw
    else
      var name := Filename(destinations.elems, isoTime);
      if ToStringThrows(preferences) || ToStringThrows(budget) then Throw
      else
        WrittenText(localDate, destinations.elems, preferences, budget, itinerary);
        Normal(LogFile(name, Content(localDate, destinations.elems, preferences, budget, itinerary)))
  }

  /** What the written text holds, gathered from the lemmas about `Content`. */
  lemma WrittenText(
    localDate: string, destinations: seq<JsValue>, preferences: JsValue, budget: JsValue,
    itinerary: string)
    requires !ToStringThrows(Arr(destinations)) && !ToStringThrows(preferences) && !ToStringThrows(budget)
    ensures var c, tail := Content(localDate, destinations, preferences, budget, itinerary), "\n\n---\n\n" + itinerary;
      && Strings.OccursAt(ContentHeading, c, 0) && Strings.OccursAt(localDate, c, |ContentHeading|)
      && Strings.IsInfix(JoinValues(destinations, ", "), c)
      && Strings.IsInfix(ToJsString(preferences), c)
      && Strings.IsInfix("$" + ToJsString(budget), c)
      && |tail| <= |c| && c[|c| - |tail|..] == tail
  {
    ContentMentions(localDate, destinations, preferences, budget, itinerary);
    ContentEnds(localDate, destinations, preferences, budget, itinerary);
  }

  /** Two destination names of safe characters give the file `itinerary_a_b_<timestamp>.md`. */
  lemma SafeNamesFile(
    a: string, b: string, preferences: JsValue, budget: JsValue, itinerary: string,
    isoTime: string, localDate: string)
    requires forall i :: 0 <= i < |a| ==> IsSafeChar(a[i])
    requires forall i :: 0 <= i < |b| ==> IsSafeChar(b[i])
    requires !ToStringThrows(preferences) && !ToStringThrows(budget)
    ensures var r := LogItinerary(Arr([Str(a), Str(b)]), preferences, budget, itinerary, isoTime, localDate);
      r.Normal? && r.value.name == "itinerary_" + a + "_" + b + "_" + RewriteTimestamp(isoTime) + ".md"
  {
    SafeNamesKept(a, b);
    assert Filename([Str(a), Str(b)], isoTime) == "itinerary_" + a + "_" + b + "_" + RewriteTimestamp(isoTime) + ".md";
  }

  // ---- the sanitised destinations ----

  /** The sanitised destinations keep, in order, exactly the safe characters of the joined list. */
  lemma SafeDestKeepsSafeChars(destinations: seq<JsValue>, c: char)
    requires !ToStringThrows(Arr(destinations))
    ensures Strings.IsSubsequence(SafeDest(destinations), JoinValues(destinations, "_"))
    ensures Strings.Count(SafeDest(destinations), c) ==
      if IsSafeChar(c) then Strings.Count(JoinValues(destinations, "_"), c) else 0
  {
    Strings.FilterIsSubsequence(JoinValues(destinations, "_"), IsSafeChar);
    Strings.FilterCount(JoinValues(destinations, "_"), IsSafeChar, c);
  }

  /** Sanitising the sanitised destinations again changes nothing. */
  lemma SafeDestIdempotent(destinations: seq<JsValue>)
    requires !ToStringThrows(Arr(destinations))
    ensures Strings.Filter(SafeDest(destinations), IsSafeChar) == SafeDest(destinations)
  {
    Strings.FilterKeepsAll(SafeDest(destinations), IsSafeChar);
  }

  /** Destination names made only of safe characters come through unchanged, joined by `_`. */
  lemma SafeNamesKept(a: string, b: string)
    requires forall i :: 0 <= i < |a| ==> IsSafeChar(a[i])
    requires forall i :: 0 <= i < |b| ==> IsSafeChar(b[i])
    ensures !ToStringThrows(Arr([Str(a), Str(b)]))
    ensures SafeDest([Str(a), Str(b)]) == a + "_" + b
  {
    var elems := [Str(a), Str(b)];
    assert forall i | 0 <= i < |elems| :: !ToStringThrows(elems[i]);
    var strs := seq(|elems|, i requires 0 <= i < |elems| => ElemString(elems[i]));
    assert ElemString(Str(a)) == a && ElemString(Str(b)) == b;
    assert |strs| == 2 && strs[0] == a && strs[1] == b;
    assert strs[1..] == [b];
    assert Strings.Join(strs, "_") == a + "_" + Strings.Join([b], "_");
    assert JoinValues(elems, "_") == a + "_" + b;
    Strings.FilterKeepsAll(a + "_" + b, IsSafeChar);
  }

  // ---- the content ----

  /** The text names the `', '`-joined destinations, the preferences and the budget after a `$`. */
  lemma ContentMentions(
    localDate: string, destinations: seq<JsValue>, preferences: JsValue, budget: JsValue,
    itinerary: string)
    requires !ToStringThrows(Arr(destinations)) && !ToStringThrows(preferences) && !ToStringThrows(budget)
    ensures var c := Content(localDate, destinations, preferences, budget, itinerary);
      Strings.IsInfix(JoinValues(destinations, ", "), c) &&
      Strings.IsInfix(ToJsString(preferences), c) &&
      Strings.IsInfix("$" + ToJsString(budget), c)
  {
    ContentTextMentions(localDate, JoinValues(destinations, ", "), ToJsString(preferences), ToJsString(budget), itinerary);
  }

  lemma ContentTextMentions(
    localDate: string, destinations: string, preferences: string, budget: string, itinerary: string)
    ensures var c := ContentText(localDate, destinations, preferences, budget, itinerary);
      Strings.IsInfix(destinations, c) && Strings.IsInfix(preferences, c) && Strings.IsInfix("$" + budget, c)
  {
    var parts := ContentParts(localDate, destinations, preferences, budget, itinerary);
    Strings.PartOccurs(parts, 3);
    Strings.PartOccurs(parts, 5);
    Strings.PartOccurs(parts, 7);
  }

  /** The text ends with the itinerary verbatim, right after the `---` rule. */
  lemma ContentEnds(
    localDate: string, destinations: seq<JsValue>, preferences: JsValue, budget: JsValue,
    itinerary: string)
    requires !ToStringThrows(Arr(destinations)) && !ToStringThrows(preferences) && !ToStringThrows(budget)
    ensures var c := Content(localDate, destinations, preferences, budget, itinerary);
      var tail := "\n\n---\n\n" + itinerary;
      |tail| <= |c| && c[|c| - |tail|..] == tail
  {
    ContentTextEnds(localDate, JoinValues(destinations, ", "), ToJsString(preferences), ToJsString(budget), itinerary);
  }

  lemma ContentTextEnds(
    localDate: string, destinations: string, preferences: string, budget: string, itinerary: string)
    ensures var c := ContentText(localDate, destinations, preferences, budget, itinerary);
      var tail := "\n\n---\n\n" + itinerary;
      |tail| <= |c| && c[|c| - |tail|..] == tail
  {
    Strings.EndsWithLastTwo(ContentParts(localDate, destinations, preferences, budget, itinerary));
  }
}
