/**
 * The bill-rate extractor of src/parse_treasury_data.rs.
 *
 * The XML tokeniser (xml-rs) is not modelled: its output is taken as a
 * sequence of events.  The extractor folds over that sequence keeping the
 * name of the most recently opened element, a flag saying whether an
 * `entry` element was opened, and a map from whitelisted element names to
 * the text last seen under them; it then projects that map onto the
 * seven-field record.
 */
module ParseTreasuryData {
  import opened Outcomes

  /** One event of the XML reader, reduced to what the extractor distinguishes. */
  datatype Event =
    | StartElement(localName: string)
    | Characters(text: string)
    | ReadError    // the reader reported an error (malformed XML, early end of input, ...)
    | Other        // end elements, whitespace, comments, the document start, ...

  datatype DoubleError = NoEntries | XMLParseError

  /** The extracted record; its field names are the feed's element names. */
  datatype TreasuryBillRates = TreasuryBillRates(
    ROUND_B1_YIELD_4WK_2: string,
    ROUND_B1_YIELD_8WK_2: string,
    ROUND_B1_YIELD_13WK_2: string,
    ROUND_B1_YIELD_17WK_2: string,
    ROUND_B1_YIELD_26WK_2: string,
    ROUND_B1_YIELD_52WK_2: string,
    INDEX_DATE: string)

  /** The whitelist of element names whose text is kept. */
  const FieldValues: seq<string> := [
    "ROUND_B1_YIELD_4WK_2", "ROUND_B1_YIELD_8WK_2", "ROUND_B1_YIELD_13WK_2",
    "ROUND_B1_YIELD_17WK_2", "ROUND_B1_YIELD_26WK_2", "ROUND_B1_YIELD_52WK_2",
    "INDEX_DATE"]

  /** The element whose presence means the feed has at least one data row. */
  const EntryName: string := "entry"

  const EmptyRates := TreasuryBillRates("", "", "", "", "", "", "")

  // ---------------------------------------------------------------------
  // Specification of the scan
  // ---------------------------------------------------------------------

  /** The local name of the last element opened in `events`, or "" if none was. */
  function CurrentCategory(events: seq<Event>): string
  {
    if events == [] then ""
    else match events[|events| - 1]
      case StartElement(name) => name
      case _ => CurrentCategory(events[..|events| - 1])
  }

  /** The text of the last character event seen while `name` was the current element. */
  function LastTextUnder(events: seq<Event>, name: string): Option<string>
  {
    if events == [] then None
    else
      var before := events[..|events| - 1];
      match events[|events| - 1]
      case Characters(s) =>
        if CurrentCategory(before) == name then Some(s) else LastTextUnder(before, name)
      case _ => LastTextUnder(before, name)
  }

  /** The field map the scan of `events` ends with: whitelisted names that received text. */
  function Collected(events: seq<Event>): map<string, string>
  {
    map k | k in FieldValues && LastTextUnder(events, k).Some? :: LastTextUnder(events, k).value
  }

  function Lookup(rates: map<string, string>, key: string): string
  {
    if key in rates then rates[key] else ""
  }

  /** The record built from a field map; a field whose key is absent stays "". */
  function Project(rates: map<string, string>): TreasuryBillRates
  {
    TreasuryBillRates(
      Lookup(rates, "ROUND_B1_YIELD_4WK_2"),
      Lookup(rates, "ROUND_B1_YIELD_8WK_2"),
      Lookup(rates, "ROUND_B1_YIELD_13WK_2"),
      Lookup(rates, "ROUND_B1_YIELD_17WK_2"),
      Lookup(rates, "ROUND_B1_YIELD_26WK_2"),
      Lookup(rates, "ROUND_B1_YIELD_52WK_2"),
      Lookup(rates, "INDEX_DATE"))
  }

  /** The record's field named `name` (an element name of the whitelist), "" for any other name. */
  function Field(r: TreasuryBillRates, name: string): string
  {
    if name == "ROUND_B1_YIELD_4WK_2" then r.ROUND_B1_YIELD_4WK_2
    else if name == "ROUND_B1_YIELD_8WK_2" then r.ROUND_B1_YIELD_8WK_2
    else if name == "ROUND_B1_YIELD_13WK_2" then r.ROUND_B1_YIELD_13WK_2
    else if name == "ROUND_B1_YIELD_17WK_2" then r.ROUND_B1_YIELD_17WK_2
    else if name == "ROUND_B1_YIELD_26WK_2" then r.ROUND_B1_YIELD_26WK_2
    else if name == "ROUND_B1_YIELD_52WK_2" then r.ROUND_B1_YIELD_52WK_2
    else if name == "INDEX_DATE" then r.INDEX_DATE
    else ""
  }

  /** What the extractor returns for an event stream. */
  function Parse(events: seq<Event>): Result<TreasuryBillRates, DoubleError>
  {
    if ReadError in events then Err(XMLParseError)
    else if StartElement(EntryName) !in events then Err(NoEntries)
    else Ok(Project(Collected(events)))
  }

  // ---------------------------------------------------------------------
  // The extractor
  // ---------------------------------------------------------------------

  /** The state of the scan once every event has been consumed. */
  datatype ScanState = ScanState(foundEntry: bool, currentCategory: string, rates: map<string, string>)

  /** The event loop: stops at the first reader error, otherwise returns the final state. */
  method ScanEvents(events: seq<Event>) returns (r: Result<ScanState, DoubleError>)
    ensures r.Err? <==> ReadError in events
    ensures r.Err? ==> r.error == XMLParseError
    ensures r.Ok? ==> r.value.foundEntry == (StartElement(EntryName) in events)
    ensures r.Ok? ==> r.value.currentCategory == CurrentCategory(events)
    ensures r.Ok? ==> (forall k :: k in r.value.rates ==> k in FieldValues)
    ensures r.Ok? ==> r.value.rates == Collected(events)
  {
    var foundEntry := false;
    var currentCategory := "";
    var rates: map<string, string> := map[];
    var i := 0;
    while i < |events|
      invariant 0 <= i <= |events|
      invariant ReadError !in events[..i]
      invariant foundEntry == (StartElement(EntryName) in events[..i])
      invariant currentCategory == CurrentCategory(events[..i])
      invariant rates == Collected(events[..i])
    {
      assert events[..i + 1] == events[..i] + [events[i]];
      SnocCategory(events[..i], events[i]);
      SnocCollected(events[..i], events[i]);
      match events[i] {
        case StartElement(name) =>
          currentCategory := name;
          if !foundEntry && currentCategory == EntryName {
            foundEntry := true;
          }
        case Characters(s) =>
          if currentCategory in FieldValues {
            rates := rates[currentCategory := s];
          }
        case ReadError =>
          return Err(XMLParseError);
        case Other =>
      }
      i := i + 1;
    }
    assert events[..i] == events;
    r := Ok(ScanState(foundEntry, currentCategory, rates));
  }

  /** The whole extractor: scan, check for an entry, then fill the record field by field. */
  method ParseTreasuryXml(events: seq<Event>) returns (r: Result<TreasuryBillRates, DoubleError>)
    ensures r == Parse(events)
    ensures r == Err(XMLParseError) <==> ReadError in events
    ensures r == Err(NoEntries) <==> ReadError !in events && StartElement(EntryName) !in events
    ensures r.Ok? ==> forall k :: k in FieldValues ==>
      Field(r.value, k) == (if LastTextUnder(events, k).Some? then LastTextUnder(events, k).value else "")
  {
    var scan := ScanEvents(events);
    if scan.Err? {
      return Err(scan.error);
    }
    var rates := scan.value.rates;
    if !scan.value.foundEntry {
      return Err(NoEntries);
    }
    var rs := EmptyRates;
    if "ROUND_B1_YIELD_4WK_2" in rates {
      rs := rs.(ROUND_B1_YIELD_4WK_2 := rates["ROUND_B1_YIELD_4WK_2"]);
    }
    if "ROUND_B1_YIELD_8WK_2" in rates {
      rs := rs.(ROUND_B1_YIELD_8WK_2 := rates["ROUND_B1_YIELD_8WK_2"]);
    }
    if "ROUND_B1_YIELD_13WK_2" in rates {
      rs := rs.(ROUND_B1_YIELD_13WK_2 := rates["ROUND_B1_YIELD_13WK_2"]);
    }
    if "ROUND_B1_YIELD_17WK_2" in rates {
      rs := rs.(ROUND_B1_YIELD_17WK_2 := rates["ROUND_B1_YIELD_17WK_2"]);
    }
    if "ROUND_B1_YIELD_26WK_2" in rates {
      rs := rs.(ROUND_B1_YIELD_26WK_2 := rates["ROUND_B1_YIELD_26WK_2"]);
    }
    if "ROUND_B1_YIELD_52WK_2" in rates {
      rs := rs.(ROUND_B1_YIELD_52WK_2 := rates["ROUND_B1_YIELD_52WK_2"]);
    }
    if "INDEX_DATE" in rates {
      rs := rs.(INDEX_DATE := rates["INDEX_DATE"]);
    }
    r := Ok(rs);
    forall k | k in FieldValues
      ensures Field(r.value, k) == (if LastTextUnder(events, k).Some? then LastTextUnder(events, k).value else "")
    {
      FieldOfProject(rates, k);
    }
  }

  // ---------------------------------------------------------------------
  // One step of the scan
  // ---------------------------------------------------------------------

  lemma SnocCategory(p: seq<Event>, e: Event)
    ensures CurrentCategory(p + [e]) == if e.StartElement? then e.localName else CurrentCategory(p)
  {
    assert (p + [e])[..|p|] == p;
  }

  lemma SnocText(p: seq<Event>, e: Event, k: string)
    ensures LastTextUnder(p + [e], k) ==
      if e.Characters? && CurrentCategory(p) == k then Some(e.text) else LastTextUnder(p, k)
  {
    assert (p + [e])[..|p|] == p;
  }

  lemma SnocCollected(p: seq<Event>, e: Event)
    ensures Collected(p + [e]) ==
      if e.Characters? && CurrentCategory(p) in FieldValues
      then Collected(p)[CurrentCategory(p) := e.text]
      else Collected(p)
  {
    forall k {
      SnocText(p, e, k);
    }
  }

  /** Each record field is read from its own key and from no other. */
  lemma FieldOfProject(rates: map<string, string>, k: string)
    requires k in FieldValues
    ensures Field(Project(rates), k) == Lookup(rates, k)
  {
  }

  // ---------------------------------------------------------------------
  // Properties of the extractor
  // ---------------------------------------------------------------------

  /** A non-start event does not change the current element, now or later. */
  lemma {:induction false} CategoryIgnoresNonStart(a: seq<Event>, e: Event, b: seq<Event>)
    requires !e.StartElement?
    ensures CurrentCategory(a + [e] + b) == CurrentCategory(a + b)
    decreases |b|
  {
    if b == [] {
      assert a + [e] + b == a + [e];
      assert a + b == a;
      SnocCategory(a, e);
    } else {
      var b', x := b[..|b| - 1], b[|b| - 1];
      assert a + [e] + b == (a + [e] + b') + [x];
      assert a + b == (a + b') + [x];
      SnocCategory(a + [e] + b', x);
      SnocCategory(a + b', x);
      CategoryIgnoresNonStart(a, e, b');
    }
  }

  /** A start element stays the current element until the next start element. */
  lemma {:induction false} CategoryIsLastStart(a: seq<Event>, name: string, b: seq<Event>)
    requires forall j :: 0 <= j < |b| ==> !b[j].StartElement?
    ensures CurrentCategory(a + [StartElement(name)] + b) == name
    decreases |b|
  {
    if b == [] {
      assert a + [StartElement(name)] + b == a + [StartElement(name)];
      SnocCategory(a, StartElement(name));
    } else {
      var b', x := b[..|b| - 1], b[|b| - 1];
      assert a + [StartElement(name)] + b == (a + [StartElement(name)] + b') + [x];
      SnocCategory(a + [StartElement(name)] + b', x);
      CategoryIsLastStart(a, name, b');
    }
  }

  /**
   * An event that is neither a start element nor text under `k` does not change
   * what is recorded for `k`.
   */
  lemma {:induction false} TextIgnoresEvent(a: seq<Event>, e: Event, b: seq<Event>, k: string)
    requires !e.StartElement?
    requires e.Characters? ==> CurrentCategory(a) != k
    ensures LastTextUnder(a + [e] + b, k) == LastTextUnder(a + b, k)
    decreases |b|
  {
    if b == [] {
      assert a + [e] + b == a + [e];
      assert a + b == a;
      SnocText(a, e, k);
    } else {
      var b', x := b[..|b| - 1], b[|b| - 1];
      assert a + [e] + b == (a + [e] + b') + [x];
      assert a + b == (a + b') + [x];
      SnocText(a + [e] + b', x, k);
      SnocText(a + b', x, k);
      CategoryIgnoresNonStart(a, e, b');
      TextIgnoresEvent(a, e, b', k);
    }
  }

  /** The first reader error ends the scan; entries and fields seen before it do not matter. */
  lemma ErrorWins(a: seq<Event>, b: seq<Event>)
    ensures Parse(a + [ReadError] + b) == Err(XMLParseError)
  {
    assert (a + [ReadError] + b)[|a|] == ReadError;
  }

  /** End elements and other events neither reset the current element nor change the result. */
  lemma OtherEventsInvisible(a: seq<Event>, b: seq<Event>)
    ensures Parse(a + [Other] + b) == Parse(a + b)
  {
    forall k | k in FieldValues
      ensures LastTextUnder(a + [Other] + b, k) == LastTextUnder(a + b, k)
    {
      TextIgnoresEvent(a, Other, b, k);
    }
    assert Collected(a + [Other] + b) == Collected(a + b);
  }

  /** Text under an element that is not whitelisted leaves the result unchanged. */
  lemma TextUnderUnlistedElementIgnored(a: seq<Event>, s: string, b: seq<Event>)
    requires CurrentCategory(a) !in FieldValues
    ensures Parse(a + [Characters(s)] + b) == Parse(a + b)
  {
    forall k | k in FieldValues
      ensures LastTextUnder(a + [Characters(s)] + b, k) == LastTextUnder(a + b, k)
    {
      TextIgnoresEvent(a, Characters(s), b, k);
    }
    assert Collected(a + [Characters(s)] + b) == Collected(a + b);
  }

  /** Text under one element changes no record field other than that element's. */
  lemma TextFillsOnlyItsField(a: seq<Event>, s: string, b: seq<Event>, k: string)
    requires k in FieldValues && k != CurrentCategory(a)
    ensures Parse(a + [Characters(s)] + b).Ok? <==> Parse(a + b).Ok?
    ensures Parse(a + b).Ok? ==>
      Field(Parse(a + [Characters(s)] + b).value, k) == Field(Parse(a + b).value, k)
  {
    TextIgnoresEvent(a, Characters(s), b, k);
    FieldOfProject(Collected(a + [Characters(s)] + b), k);
    FieldOfProject(Collected(a + b), k);
  }

  /**
   * Text under `k` stays what is recorded for `k` until text arrives while `k`
   * is current again; text under other elements does not disturb it.
   */
  lemma {:induction false} TextSurvivesUntilOverwritten(a: seq<Event>, s: string, b: seq<Event>)
    requires forall j :: 0 <= j < |b| && b[j].Characters? ==>
      CurrentCategory(a + [Characters(s)] + b[..j]) != CurrentCategory(a)
    ensures LastTextUnder(a + [Characters(s)] + b, CurrentCategory(a)) == Some(s)
    decreases |b|
  {
    if b == [] {
      assert a + [Characters(s)] + b == a + [Characters(s)];
      SnocText(a, Characters(s), CurrentCategory(a));
    } else {
      var b', x := b[..|b| - 1], b[|b| - 1];
      assert a + [Characters(s)] + b == (a + [Characters(s)] + b') + [x];
      assert forall j :: 0 <= j < |b'| ==> b'[..j] == b[..j];
      assert b[..|b'|] == b';
      SnocText(a + [Characters(s)] + b', x, CurrentCategory(a));
      TextSurvivesUntilOverwritten(a, s, b');
    }
  }

  /** A whitelisted field carries the last text seen under it (later text under it overwrites). */
  lemma LastTextWins(a: seq<Event>, s: string, b: seq<Event>)
    requires CurrentCategory(a) in FieldValues
    requires forall j :: 0 <= j < |b| && b[j].Characters? ==>
      CurrentCategory(a + [Characters(s)] + b[..j]) != CurrentCategory(a)
    requires Parse(a + [Characters(s)] + b).Ok?
    ensures Field(Parse(a + [Characters(s)] + b).value, CurrentCategory(a)) == s
  {
    TextSurvivesUntilOverwritten(a, s, b);
    FieldOfProject(Collected(a + [Characters(s)] + b), CurrentCategory(a));
  }

  /** Once an entry exists, every field is its last text, or "" if it never received any. */
  lemma FieldIsLastTextOrEmpty(events: seq<Event>, k: string)
    requires k in FieldValues
    requires ReadError !in events && StartElement(EntryName) in events
    ensures Parse(events).Ok?
    ensures LastTextUnder(events, k).None? ==> Field(Parse(events).value, k) == ""
    ensures LastTextUnder(events, k).Some? ==> Field(Parse(events).value, k) == LastTextUnder(events, k).value
  {
    FieldOfProject(Collected(events), k);
  }

  /** The events the reader yields for one feed row holding two of the seven fields. */
  const ScenarioEvents: seq<Event> := [
    StartElement("entry"),
    StartElement("ROUND_B1_YIELD_4WK_2"), Characters("5.10"), Other,
    StartElement("INDEX_DATE"), Characters("2024-05-01"), Other,
    Other]

  lemma ScenarioCollected()
    ensures Collected(ScenarioEvents) == map["ROUND_B1_YIELD_4WK_2" := "5.10", "INDEX_DATE" := "2024-05-01"]
  {
    var p1 := [StartElement("entry")];
    var p2 := p1 + [StartElement("ROUND_B1_YIELD_4WK_2")];
    var p3 := p2 + [Characters("5.10")];
    var p4 := p3 + [Other];
    var p5 := p4 + [StartElement("INDEX_DATE")];
    var p6 := p5 + [Characters("2024-05-01")];
    var p7 := p6 + [Other];
    var p8 := p7 + [Other];
    assert [] + [StartElement("entry")] == p1;
    SnocCategory([], StartElement("entry"));
    SnocCollected([], StartElement("entry"));
    SnocCategory(p1, StartElement("ROUND_B1_YIELD_4WK_2"));
    SnocCollected(p1, StartElement("ROUND_B1_YIELD_4WK_2"));
    SnocCategory(p2, Characters("5.10"));
    SnocCollected(p2, Characters("5.10"));
    SnocCategory(p3, Other);
    SnocCollected(p3, Other);
    SnocCategory(p4, StartElement("INDEX_DATE"));
    SnocCollected(p4, StartElement("INDEX_DATE"));
    SnocCollected(p5, Characters("2024-05-01"));
    SnocCollected(p6, Other);
    SnocCollected(p7, Other);
    assert p8 == ScenarioEvents;
  }

  /** The feed row of the usual shape: two fields filled, the other five "". */
  lemma BillRateScenario()
    ensures Parse(ScenarioEvents) == Ok(TreasuryBillRates("5.10", "", "", "", "", "", "2024-05-01"))
  {
    ScenarioCollected();
    assert ScenarioEvents[0] == StartElement(EntryName);
  }

  /**
   * Text is collected even when its element comes before any entry element:
   * `<feed><INDEX_DATE>2024-05-01</INDEX_DATE><entry></entry></feed>`.
   */
  lemma FieldOutsideEntryCollected()
    ensures Parse([StartElement("feed"), StartElement("INDEX_DATE"), Characters("2024-05-01"), Other,
                   StartElement("entry"), Other, Other])
      == Ok(EmptyRates.(INDEX_DATE := "2024-05-01"))
  {
    var p1 := [StartElement("feed")];
    var p2 := p1 + [StartElement("INDEX_DATE")];
    var p3 := p2 + [Characters("2024-05-01")];
    var p4 := p3 + [Other];
    var p5 := p4 + [StartElement("entry")];
    var p6 := p5 + [Other];
    var p7 := p6 + [Other];
    assert [] + [StartElement("feed")] == p1;
    SnocCategory([], StartElement("feed"));
    SnocCollected([], StartElement("feed"));
    SnocCategory(p1, StartElement("INDEX_DATE"));
    SnocCollected(p1, StartElement("INDEX_DATE"));
    SnocCollected(p2, Characters("2024-05-01"));
    SnocCollected(p3, Other);
    SnocCollected(p4, StartElement("entry"));
    SnocCollected(p5, Other);
    SnocCollected(p6, Other);
    assert Collected(p7) == map["INDEX_DATE" := "2024-05-01"];
    assert p7[4] == StartElement(EntryName);
    assert p7 == [StartElement("feed"), StartElement("INDEX_DATE"), Characters("2024-05-01"), Other,
                  StartElement("entry"), Other, Other];
  }

  /** In the feed row of the usual shape the 4-week field keeps "5.10" although other text follows it. */
  lemma ScenarioFourWeekField()
    ensures Field(Parse(ScenarioEvents).value, "ROUND_B1_YIELD_4WK_2") == "5.10"
  {
    var a := [StartElement("entry"), StartElement("ROUND_B1_YIELD_4WK_2")];
    var b := [Other, StartElement("INDEX_DATE"), Characters("2024-05-01"), Other, Other];
    assert ScenarioEvents == a + [Characters("5.10")] + b;
    SnocCategory([StartElement("entry")], StartElement("ROUND_B1_YIELD_4WK_2"));
    assert [StartElement("entry")] + [StartElement("ROUND_B1_YIELD_4WK_2")] == a;
    CategoryIsLastStart(a + [Characters("5.10")] + b[..1], "INDEX_DATE", []);
    assert a + [Characters("5.10")] + b[..1] + [StartElement("INDEX_DATE")] + [] ==
           a + [Characters("5.10")] + b[..2] by {
      assert b[..2] == b[..1] + [StartElement("INDEX_DATE")];
    }
    assert ScenarioEvents[0] == StartElement(EntryName);
    LastTextWins(a, "5.10", b);
  }
}
