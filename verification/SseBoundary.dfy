/**
 The frame guard as an authorization boundary, said of the bytes of the lines: which events pass it.
 */
module SseBoundary {
  import opened Common
  import opened SseFrameGuard
  import opened SseStreams

  // ----- What the lines of an event say -----

  function Ascii(s: string): Bytes {
    seq(|s|, i requires 0 <= i < |s| => (s[i] as int % 256) as byte)
  }

  /** The line gives the field this value: after a colon, with one space left out, or nothing at all. */
  predicate Says(line: Bytes, field: Bytes, value: Bytes) {
    || (line == field && value == [])
    || (line == field + Ascii(":") + value && !(Ascii(" ") <= value))
    || line == field + Ascii(": ") + value
  }

  /** The values that the lines give a field, in order. */
  ghost predicate Lists(lines: seq<Bytes>, field: Bytes, values: seq<Bytes>) {
    if lines == [] then values == []
    else if exists v :: Says(lines[0], field, v) then
      values != [] && Says(lines[0], field, values[0]) && Lists(lines[1..], field, values[1..])
    else Lists(lines[1..], field, values)
  }

  /** The name and the data of an event: the last name it gives, and its data lines joined. */
  ghost predicate Reads(lines: seq<Bytes>, name: Bytes, data: Bytes) {
    exists names, values ::
      && Lists(lines, Ascii("event"), names) && Lists(lines, Ascii("data"), values)
      && name == (if names == [] then Ascii("message") else names[|names| - 1])
      && data == Join(values, Ascii("\n"))
  }

  // ----- The guard reads the same -----

  lemma Constants()
    ensures Ascii("event") == EVENT_FIELD && Ascii("data") == DATA_FIELD
    ensures Ascii("message") == MESSAGE_NAME && Ascii("endpoint") == ENDPOINT_NAME
    ensures Ascii(":") == [COLON] && Ascii(" ") == [SPACE] && Ascii(": ") == [COLON, SPACE]
    ensures Ascii("\n") == [LF] && Ascii("//") == [SLASH, SLASH]
  {
  }

  lemma SaidIsTaken(line: Bytes, field: Bytes, value: Bytes)
    requires field != [] && COLON !in field && Says(line, field, value)
    ensures !IsComment(line) && FieldName(line) == field && FieldValue(line) == value
  {
    Constants();
    hide Ascii;
    if line == field {
      FirstColonAt(line, |line|);
    } else {
      assert line[|field|] == COLON && line[..|field|] == field;
      FirstColonAt(line, |field|);
    }
  }

  lemma TakenIsSaid(line: Bytes, field: Bytes)
    requires field != [] && !IsComment(line) && FieldName(line) == field
    ensures Says(line, field, FieldValue(line))
  {
    Constants();
    hide Ascii;
    var i := FirstColon(line);
    assert line == field + line[i..];
    if i < |line| {
      assert line[i..] == [COLON] + line[i + 1..];
      if i + 1 < |line| && line[i + 1] == SPACE {
        assert line[i..] == [COLON, SPACE] + line[i + 2..];
      }
    }
  }

  lemma SaysExactly(line: Bytes, field: Bytes, value: Bytes)
    requires field != [] && COLON !in field
    ensures Says(line, field, value) <==> !IsComment(line) && FieldName(line) == field && FieldValue(line) == value
  {
    hide Says, IsComment, FieldName, FieldValue;
    if Says(line, field, value) {
      SaidIsTaken(line, field, value);
    }
    if !IsComment(line) && FieldName(line) == field {
      TakenIsSaid(line, field);
    }
  }

  /** The values of a field as the guard takes them. */
  function Taken(lines: seq<Bytes>, field: Bytes): seq<Bytes> {
    if lines == [] then []
    else if !IsComment(lines[0]) && FieldName(lines[0]) == field then [FieldValue(lines[0])] + Taken(lines[1..], field)
    else Taken(lines[1..], field)
  }

  lemma {:induction false} ListsExactly(lines: seq<Bytes>, field: Bytes, values: seq<Bytes>)
    requires field != [] && COLON !in field
    ensures Lists(lines, field, values) <==> values == Taken(lines, field)
    decreases |lines|
  {
    if lines != [] {
      hide Says, IsComment, FieldName, FieldValue;
      forall v
        ensures Says(lines[0], field, v) <==> !IsComment(lines[0]) && FieldName(lines[0]) == field && FieldValue(lines[0]) == v
      {
        SaysExactly(lines[0], field, v);
      }
      if !IsComment(lines[0]) && FieldName(lines[0]) == field {
        assert Says(lines[0], field, FieldValue(lines[0]));
        if values != [] {
          ListsExactly(lines[1..], field, values[1..]);
          assert values == [values[0]] + values[1..];
        }
      } else {
        ListsExactly(lines[1..], field, values);
      }
    }
  }

  lemma {:induction false} TakenIs(lines: seq<Bytes>)
    ensures Taken(lines, EVENT_FIELD) == EventNames(lines) && Taken(lines, DATA_FIELD) == DataValues(lines)
  {
    if lines != [] {
      TakenIs(lines[1..]);
    }
  }

  /** Every event has one name and one text of data, and they are those the guard uses. */
  lemma ReadsExactly(lines: seq<Bytes>, name: Bytes, data: Bytes)
    ensures Reads(lines, name, data) <==> name == EventName(lines) && data == Join(DataValues(lines), [LF])
  {
    Constants();
    TakenIs(lines);
    hide Ascii, Taken, EventNames, DataValues;
    forall values
      ensures Lists(lines, EVENT_FIELD, values) <==> values == EventNames(lines)
    {
      ListsExactly(lines, EVENT_FIELD, values);
    }
    forall values
      ensures Lists(lines, DATA_FIELD, values) <==> values == DataValues(lines)
    {
      ListsExactly(lines, DATA_FIELD, values);
    }
    hide Lists;
    if name == EventName(lines) && data == Join(DataValues(lines), [LF]) {
      assert Lists(lines, EVENT_FIELD, EventNames(lines)) && Lists(lines, DATA_FIELD, DataValues(lines));
    }
  }

  // ----- The boundary -----

  /** An endpoint that may be used: text, not empty, not relative to the scheme alone, and of the target's origin. */
  predicate MayBeUsed(p: Policy, data: Bytes) {
    p.utf8(data) && data != [] && !(Ascii("//") <= data) && p.sameOrigin(data)
  }

  /** An event within the limit passes exactly when its names are text and, from a guard that validates endpoints,
      an event named `endpoint` has data that may be used. */
  lemma PassesExactlyWhen(p: Policy, e: Event, name: Bytes, data: Bytes)
    requires EventSize(e) <= p.maxBytes && Reads(Texts(e.body), name, data)
    ensures Verdict(p, e).None? <==>
      && (forall names, k :: Lists(Texts(e.body), Ascii("event"), names) && 0 <= k < |names| ==> p.utf8(names[k]))
      && (p.validateEndpoint && name == Ascii("endpoint") ==> MayBeUsed(p, data))
  {
    var lines := Texts(e.body);
    Constants();
    TakenIs(lines);
    ReadsExactly(lines, name, data);
    RefusedExactlyWhen(p, e);
    hide Ascii, Taken, Verdict, Texts, EventNames, DataValues, Reads;
    forall names
      ensures Lists(lines, EVENT_FIELD, names) <==> names == EventNames(lines)
    {
      ListsExactly(lines, EVENT_FIELD, names);
    }
    hide Lists;
    assert Lists(lines, EVENT_FIELD, EventNames(lines));
  }

  /** Whatever the server sends, in whatever chunks: each endpoint event that a validating guard releases
      has data that may be used. */
  lemma NoOtherEndpointIsReleased(p: Policy, d: Document, chunks: seq<Bytes>, i: nat, data: Bytes)
    requires WellFormed(d) && Concat(chunks) == Text(d)
    requires p.validateEndpoint && FeedAll(p, FRESH, chunks).Released?
    requires i < |d.events| && Reads(Texts(d.events[i].body), Ascii("endpoint"), data)
    ensures MayBeUsed(p, data)
  {
    Constants();
    ReadsExactly(Texts(d.events[i].body), Ascii("endpoint"), data);
    hide Ascii, Reads;
    ReleasedEndpointsAreAllowed(p, d, chunks, i);
  }

  // ----- Sizes and line breaks -----

  /** The size that is compared with the limit is that of the joined data. */
  lemma DataSizeIsOfTheJoin(data: seq<Bytes>)
    ensures DataSize(data) == |Join(data, [LF])|
  {
    if data != [] {
      JoinLength(data);
    }
  }

  /** The same bytes, with a line feed for every break, whether it was CRLF, CR or LF. */
  ghost predicate SameBreaks(s: Bytes, t: Bytes)
    decreases |s|
  {
    if s == [] then t == []
    else if [CR, LF] <= s then t != [] && t[0] == LF && SameBreaks(s[2..], t[1..])
    else if s[0] == CR then t != [] && t[0] == LF && SameBreaks(s[1..], t[1..])
    else t != [] && t[0] == s[0] && SameBreaks(s[1..], t[1..])
  }

  /** The terminal scanner unifies the line breaks of what it reads. */
  lemma {:induction false} ScannerUnifiesBreaks(s: Bytes)
    ensures SameBreaks(s, Normalize(s)) && CR !in Normalize(s)
    decreases |s|
  {
    if s != [] {
      ScannerUnifiesBreaks(if [CR, LF] <= s then s[2..] else s[1..]);
    }
  }
}
