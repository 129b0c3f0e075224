/** initialSample.py without its Qt layout and timers: the text the sidebar
    and the score ticker show after each refresh. A refresh receives the
    outcome of its HTTP request (the decoded document, or the exception the
    request or the decoding raised) and overwrites its widget's text once,
    with the content or with an error line. */
module Dashboard {
  import opened PyJson
  import opened PyText

  const TickerErrorPrefix := "Failed to load sports scores: "
  const SidebarErrorPrefix := "Failed to load sidebar data: "
  const TickerSeparator := " | "
  /** The ticker shows at most this many events. */
  const TickerLength := 5

  /** `events[:5]`, as the comprehension walks it: the first five items of a
      list, or the first five characters of a string. A dict or a scalar
      (null included) cannot be sliced. */
  function FirstEvents(events: Json): (r: Result<seq<Json>>)
    ensures events.JArr? ==> r.Ok? && |r.value| == (if |events.items| < TickerLength then |events.items| else TickerLength) &&
                             forall k :: 0 <= k < |r.value| ==> r.value[k] == events.items[k]
    ensures r.Ok? <==> events.JArr? || events.JStr?
  {
    match events
    case JArr(items) => Ok(if |items| <= TickerLength then items else items[..TickerLength])
    case JStr(s) => Ok(Chars(if |s| <= TickerLength then s else s[..TickerLength]))
    case JObj(_) => Err(TypeError("unhashable type: 'slice'"))
    case _ => Err(TypeError("'" + TypeName(events) + "' object is not subscriptable"))
  }

  /** `f"{e['strEvent']} ({e['intHomeScore']} - {e['intAwayScore']})"`. */
  function Entry(e: Json): Result<string> {
    var title :- Subscript(e, "strEvent");
    var home :- Subscript(e, "intHomeScore");
    var away :- Subscript(e, "intAwayScore");
    Ok(Render(title) + " (" + Render(home) + " - " + Render(away) + ")")
  }

  /** The list comprehension over the sliced events: every entry, or the
      first failure and no list at all. */
  function Entries(events: seq<Json>): (r: Result<seq<string>>)
    ensures r.Ok? <==> forall k :: 0 <= k < |events| ==> Entry(events[k]).Ok?
    ensures r.Ok? ==> |r.value| == |events| && forall k :: 0 <= k < |events| ==> r.value[k] == Entry(events[k]).value
    ensures r.Err? ==> exists k :: 0 <= k < |events| && Entry(events[k]) == Err(r.error) &&
                                   forall j :: 0 <= j < k ==> Entry(events[j]).Ok?
  {
    if events == [] then Ok([])
    else
      var first :- Entry(events[0]);
      var rest :- Entries(events[1..]);
      Ok([first] + rest)
  }

  /** The ticker line built from the value of the `events` key. */
  function TickerFromEvents(events: Json): Result<string> {
    var first :- FirstEvents(events);
    var scores :- Entries(first);
    Ok(Join(TickerSeparator, scores))
  }

  /** The body of the `try` in `update_ticker`. */
  function TickerContent(response: Result<Json>): Result<string> {
    var data :- response;
    var events :- Get(data, "events", JArr([]));
    TickerFromEvents(events)
  }

  /** The text `update_ticker` passes to `setText`. */
  function TickerText(response: Result<Json>): string {
    match TickerContent(response)
    case Ok(text) => text
    case Err(e) => TickerErrorPrefix + Describe(e)
  }

  /** The body of the `try` in `update_sidebar`. */
  function SidebarContent(response: Result<Json>): Result<string> {
    var data :- response;
    var title :- Subscript(data, "title");
    var body :- Subscript(data, "body");
    Ok("Title: " + Render(title) + "\n\n" + Render(body))
  }

  /** The text `update_sidebar` passes to `setText`. */
  function SidebarText(response: Result<Json>): string {
    match SidebarContent(response)
    case Ok(text) => text
    case Err(e) => SidebarErrorPrefix + Describe(e)
  }

  /** The two widgets whose text the refreshes overwrite. The ghost logs
      record every `setText` call, so that "exactly one write per refresh"
      can be stated. */
  class MainWindow {
    var sidebarText: string
    var tickerText: string
    ghost var sidebarWrites: seq<string>
    ghost var tickerWrites: seq<string>

    /** `__init__`: an empty sidebar and the "Loading sports scores..."
        label, then one refresh of each. */
    constructor (sidebarResponse: Result<Json>, tickerResponse: Result<Json>)
      ensures sidebarText == SidebarText(sidebarResponse) && sidebarWrites == [sidebarText]
      ensures tickerText == TickerText(tickerResponse) && tickerWrites == [tickerText]
    {
      sidebarText := "";
      tickerText := "Loading sports scores...";
      sidebarWrites := [];
      tickerWrites := [];
      new;
      UpdateSidebar(sidebarResponse);
      UpdateTicker(tickerResponse);
    }

    /** `self.sidebar.setText(content)`. */
    method SetSidebarText(content: string)
      modifies this
      ensures sidebarText == content && sidebarWrites == old(sidebarWrites) + [content]
      ensures tickerText == old(tickerText) && tickerWrites == old(tickerWrites)
    {
      sidebarText := content;
      sidebarWrites := sidebarWrites + [content];
    }

    /** `self.ticker_label.setText(ticker_text)`. */
    method SetTickerText(content: string)
      modifies this
      ensures tickerText == content && tickerWrites == old(tickerWrites) + [content]
      ensures sidebarText == old(sidebarText) && sidebarWrites == old(sidebarWrites)
    {
      tickerText := content;
      tickerWrites := tickerWrites + [content];
    }

    /** `update_sidebar`: compute the content or the error line, then write
        the sidebar once; the ticker is untouched. */
    method UpdateSidebar(response: Result<Json>)
      modifies this
      ensures sidebarText == SidebarText(response) && sidebarWrites == old(sidebarWrites) + [sidebarText]
      ensures tickerText == old(tickerText) && tickerWrites == old(tickerWrites)
    {
      var content: string;
      var attempt := SidebarContent(response);
      if attempt.Ok? {
        content := attempt.value;
      } else {
        content := SidebarErrorPrefix + Describe(attempt.error);
      }
      SetSidebarText(content);
    }

    /** `update_ticker`: compute the line or the error line, then write the
        ticker once; the sidebar is untouched. */
    method UpdateTicker(response: Result<Json>)
      modifies this
      ensures tickerText == TickerText(response) && tickerWrites == old(tickerWrites) + [tickerText]
      ensures sidebarText == old(sidebarText) && sidebarWrites == old(sidebarWrites)
    {
      var line: string;
      var attempt := TickerContent(response);
      if attempt.Ok? {
        line := attempt.value;
      } else {
        line := TickerErrorPrefix + Describe(attempt.error);
      }
      SetTickerText(line);
    }
  }

  // What the refreshes promise.

  /** A document without an `events` key gives an empty ticker. */
  lemma TickerEmptyWithoutEvents(data: Json)
    requires data.JObj? && forall i :: 0 <= i < |data.entries| ==> data.entries[i].0 != "events"
    ensures TickerText(Ok(data)) == ""
  {
  }

  /** The `[]` default stands in for an absent key only: an `events` key
      holding null makes the slice fail, and the error line is shown. */
  lemma TickerErrorOnNullEvents(data: Json)
    requires data.JObj? && Lookup(data.entries, "events") == Some(JNull)
    ensures TickerContent(Ok(data)).Err?
    ensures TickerText(Ok(data)) == TickerErrorPrefix + Describe(TickerContent(Ok(data)).error)
  {
    assert Get(data, "events", JArr([])) == Ok(JNull);
    assert FirstEvents(JNull).Err?;
  }

  /** An event whose three fields are strings is shown as exactly
      `strEvent (intHomeScore - intAwayScore)`. */
  lemma EntryIsScoreLine(e: Json, title: string, home: string, away: string)
    requires e.JObj?
    requires Lookup(e.entries, "strEvent") == Some(JStr(title))
    requires Lookup(e.entries, "intHomeScore") == Some(JStr(home))
    requires Lookup(e.entries, "intAwayScore") == Some(JStr(away))
    ensures Entry(e) == Ok(title + " (" + home + " - " + away + ")")
  {
  }

  /** An entry can be formatted exactly when the event is a dict holding all
      three keys; otherwise its failure is the first missing key's. */
  lemma EntryNeedsAllKeys(e: Json)
    ensures Entry(e).Ok? <==> e.JObj? && Lookup(e.entries, "strEvent").Some? &&
                              Lookup(e.entries, "intHomeScore").Some? && Lookup(e.entries, "intAwayScore").Some?
    ensures e.JObj? && Lookup(e.entries, "strEvent").None? ==> Entry(e) == Err(KeyError("strEvent"))
    ensures e.JObj? && Lookup(e.entries, "strEvent").Some? && Lookup(e.entries, "intHomeScore").None? ==>
              Entry(e) == Err(KeyError("intHomeScore"))
    ensures e.JObj? && Lookup(e.entries, "strEvent").Some? && Lookup(e.entries, "intHomeScore").Some? &&
              Lookup(e.entries, "intAwayScore").None? ==>
              Entry(e) == Err(KeyError("intAwayScore"))
    ensures !e.JObj? ==> Entry(e) == Err(Subscript(e, "strEvent").error)
  {
  }

  /** The text `update_ticker` shows for a document whose `events` key
      holds `events`: the ticker line built from them, or the error prefix
      followed by the text of the exception that building it raised. */
  lemma TickerTextOfEvents(data: Json, events: Json)
    requires data.JObj? && Lookup(data.entries, "events") == Some(events)
    ensures TickerText(Ok(data)) == (match TickerFromEvents(events)
                                     case Ok(t) => t
                                     case Err(e) => TickerErrorPrefix + Describe(e))
  {
    assert Get(data, "events", JArr([])) == Ok(events);
  }

  /** When the first five events all format, the ticker is their entries,
      in response order, joined by " | ": later events play no part. */
  lemma TickerJoinsFirstEvents(items: seq<Json>)
    requires forall k :: 0 <= k < |items| && k < TickerLength ==> Entry(items[k]).Ok?
    ensures var n := if |items| < TickerLength then |items| else TickerLength;
            TickerFromEvents(JArr(items)) == Ok(Join(TickerSeparator, seq(n, k requires 0 <= k < n => Entry(items[k]).value)))
  {
    var n := if |items| < TickerLength then |items| else TickerLength;
    var first := FirstEvents(JArr(items)).value;
    var scores := Entries(first).value;
    assert scores == seq(n, k requires 0 <= k < n => Entry(items[k]).value);
  }

  /** Events after the fifth are never read: two event lists that agree on
      their first five give the same ticker, even when a later event is
      malformed. */
  lemma TickerIgnoresLaterEvents(items: seq<Json>, other: seq<Json>)
    requires |items| >= TickerLength && |other| >= TickerLength
    requires items[..TickerLength] == other[..TickerLength]
    ensures TickerFromEvents(JArr(items)) == TickerFromEvents(JArr(other))
  {
    if |items| == TickerLength { assert items[..TickerLength] == items; }
    if |other| == TickerLength { assert other[..TickerLength] == other; }
    assert FirstEvents(JArr(items)) == Ok(items[..TickerLength]);
    assert FirstEvents(JArr(other)) == Ok(other[..TickerLength]);
  }

  /** No partial list is ever shown: if any of the first five events lacks
      a key, the whole ticker is the error of the first such event. */
  lemma TickerWholesaleFailure(items: seq<Json>, k: nat)
    requires k < |items| && k < TickerLength && Entry(items[k]).Err?
    ensures TickerFromEvents(JArr(items)).Err?
    ensures exists j :: 0 <= j <= k && Entry(items[j]).Err? &&
                        TickerFromEvents(JArr(items)) == Err(Entry(items[j]).error) &&
                        forall i :: 0 <= i < j ==> Entry(items[i]).Ok?
  {
    var first := FirstEvents(JArr(items)).value;
    assert first[k] == items[k];
    var e := Entries(first);
    var j :| 0 <= j < |first| && Entry(first[j]) == Err(e.error) &&
             forall i :: 0 <= i < j ==> Entry(first[i]).Ok?;
    assert j <= k;
    assert first[j] == items[j];
    assert forall i :: 0 <= i < j ==> first[i] == items[i];
  }

  /** A failed request or a document that is not a dict with both keys
      gives the sidebar error line and never a partial "Title: " text. */
  lemma SidebarErrorLine(response: Result<Json>)
    requires response.Err? || Subscript(response.value, "title").Err? || Subscript(response.value, "body").Err?
    ensures SidebarText(response) == SidebarErrorPrefix + Describe(SidebarContent(response).error)
  {
  }

  /** A document with string title and body shows exactly
      "Title: <title>", a blank line, and the body. */
  lemma SidebarShowsTitleAndBody(data: Json, title: string, body: string)
    requires data.JObj?
    requires Lookup(data.entries, "title") == Some(JStr(title)) && Lookup(data.entries, "body") == Some(JStr(body))
    ensures SidebarText(Ok(data)) == "Title: " + title + "\n\n" + body
  {
  }
}
