// The search documents of meeting artifacts: the upkeep of the index after each change of an artifact
// and the full rebuild of the transcript segments.
module SearchIndex {
  import opened Options
  import Text

  // ---------- Artifacts ----------

  datatype Kind = Transcript | Summary | Actions

  // A moment as the database client yields it: a text, which may not be a date, or a date.
  datatype Stamp = Stamp(isText: bool, ms: Option<int>)

  // An element of `segments`. A number is None when it is not finite.
  datatype Segment =
    | Nothing
    | Plain(line: string)
    | Spoken(speakerUserId: Option<string>, speakerLabel: Option<string>, text: Option<string>, startMs: Option<real>, endMs: Option<real>)

  // `texts` holds the values of the six text keys in the order in which they are tried; `actions` the
  // lines made of the actions.
  datatype Payload = NoPayload | NoObject | Object(actions: Option<seq<string>>, texts: seq<Option<string>>, segments: Option<seq<Segment>>)

  datatype Meeting = Meeting(
    id: string, title: string, host: string, channel: string,
    startedAt: Option<Stamp>, endedAt: Option<Stamp>, scheduledAt: Option<Stamp>
  )

  datatype Artifact = Artifact(
    kind: Kind, ready: bool, payload: Payload, meeting: Meeting, createdAt: Option<Stamp>, updatedAt: Option<Stamp>
  )

  type Artifacts = map<string, Artifact>

  // ---------- Documents ----------

  datatype DocType = OfArtifact(kind: Kind) | OfSegment | OfOther(name: string)

  datatype Timestamp = Computed(ms: int) | Copied(stamp: Option<Stamp>)

  datatype Document = Document(
    docType: DocType, docId: string, transcript: Option<string>, meeting: Meeting, author: string, byline: string,
    title: string, text: string, startMs: int, endMs: Option<int>, speakers: seq<string>, timestamp: Timestamp
  )

  type Key = (DocType, string)
  type Index = map<Key, Document>

  function KeyOf(doc: Document): Key {
    (doc.docType, doc.docId)
  }

  predicate Has(index: Index, doc: Document) {
    KeyOf(doc) in index && index[KeyOf(doc)] == doc
  }

  ghost predicate WellKeyed(index: Index) {
    forall key | key in index :: KeyOf(index[key]) == key
  }

  // ---------- Identifiers of segments ----------

  function Decimal(n: nat): (digits: string)
    ensures digits != "" && ':' !in digits && (|digits| == 1 <==> n < 10)
    decreases n
  {
    var digit := ['0' + (n % 10) as char];
    if n < 10 then digit else Decimal(n / 10) + digit
  }

  lemma {:induction false} DecimalInjective(m: nat, n: nat)
    requires Decimal(m) == Decimal(n)
    ensures m == n
    decreases m
  {
    var a, b := Decimal(m), Decimal(n);
    assert a[|a| - 1] == '0' + (m % 10) as char && b[|b| - 1] == '0' + (n % 10) as char;
    assert m % 10 == n % 10;
    if m >= 10 && n >= 10 {
      assert a[..|a| - 1] == Decimal(m / 10) && b[..|b| - 1] == Decimal(n / 10);
      DecimalInjective(m / 10, n / 10);
    }
  }

  // The number that a sequence of digits reads.
  function Number(digits: string): nat
    requires forall i :: 0 <= i < |digits| ==> '0' <= digits[i] <= '9'
  {
    if digits == "" then 0 else 10 * Number(digits[..|digits| - 1]) + (digits[|digits| - 1] - '0') as nat
  }

  lemma {:induction false} DecimalReads(n: nat)
    ensures forall i :: 0 <= i < |Decimal(n)| ==> '0' <= Decimal(n)[i] <= '9'
    ensures Number(Decimal(n)) == n
    decreases n
  {
    var digit := '0' + (n % 10) as char;
    if n >= 10 {
      DecimalReads(n / 10);
      assert Decimal(n)[..|Decimal(n)| - 1] == Decimal(n / 10);
    } else {
      assert [digit][..0] == "";
    }
  }

  function SegmentId(artifact: string, index: nat): string {
    artifact + ":" + Decimal(index)
  }

  lemma NoColonBehind(artifact: string, index: nat, at: nat)
    requires |artifact| < at < |SegmentId(artifact, index)|
    ensures SegmentId(artifact, index)[at] != ':'
  {
    assert SegmentId(artifact, index)[at] == Decimal(index)[at - |artifact| - 1];
  }

  // A segment identifier names its transcript and its place, even when identifiers hold colons.
  lemma SegmentIdInjective(a: string, i: nat, b: string, j: nat)
    requires SegmentId(a, i) == SegmentId(b, j)
    ensures a == b && i == j
  {
    var s, t := SegmentId(a, i), SegmentId(b, j);
    if |a| < |b| {
      NoColonBehind(a, i, |b|);
      assert false;
    } else if |b| < |a| {
      NoColonBehind(b, j, |a|);
      assert false;
    } else {
      assert s[..|a|] == a && t[..|b|] == b;
      assert s[|a| + 1..] == Decimal(i) && t[|b| + 1..] == Decimal(j);
      DecimalInjective(i, j);
    }
  }

  // ---------- Contents ----------

  function Trimmed(value: Option<string>): string {
    if value.Some? then Text.Trim(value.value) else ""
  }

  // Rounding to the nearest integer, halves up.
  function Round(x: real): int {
    (x + 0.5).Floor
  }

  predicate Valid(segment: Segment) {
    && segment.Spoken?
    && Trimmed(segment.speakerUserId) != "" && Trimmed(segment.speakerLabel) != "" && Trimmed(segment.text) != ""
    && segment.startMs.Some? && segment.startMs.value >= 0.0
  }

  function FirstText(texts: seq<Option<string>>): Option<string> {
    if texts == [] then None
    else if Trimmed(texts[0]) != "" then Some(Trimmed(texts[0]))
    else FirstText(texts[1..])
  }

  function Line(segment: Segment): string {
    match segment
    case Nothing => ""
    case Plain(line) => Text.Trim(line)
    case Spoken(_, _, text, _, _) => Trimmed(text)
  }

  function NonEmptyLines(lines: seq<string>): (r: seq<string>)
    ensures r == [] <==> forall i | 0 <= i < |lines| :: lines[i] == ""
  {
    if lines == [] then [] else (if lines[0] == "" then [] else [lines[0]]) + NonEmptyLines(lines[1..])
  }

  function Joined(lines: seq<string>): string {
    if lines == [] then "" else if |lines| == 1 then lines[0] else lines[0] + "\n" + Joined(lines[1..])
  }

  function JoinedLines(lines: seq<string>): Option<string> {
    var kept := NonEmptyLines(lines);
    if kept == [] then None else Some(Joined(kept))
  }

  function Content(payload: Payload, kind: Kind): Option<string> {
    if !payload.Object? then None
    else if kind.Actions? && payload.actions.Some? then JoinedLines(payload.actions.value)
    else if FirstText(payload.texts).Some? then FirstText(payload.texts)
    else if payload.segments.None? then None
    else JoinedLines(seq(|payload.segments.value|, i requires 0 <= i < |payload.segments.value| => Line(payload.segments.value[i])))
  }

  // Where the i-th line begins in the joined text.
  function LineStart(lines: seq<string>, i: nat): nat
    requires i <= |lines|
  {
    if i == 0 then 0 else LineStart(lines, i - 1) + |lines[i - 1]| + 1
  }

  lemma {:induction false} LineStartTail(lines: seq<string>, i: nat)
    requires 0 < i <= |lines|
    ensures LineStart(lines, i) == |lines[0]| + 1 + LineStart(lines[1..], i - 1)
  {
    if i > 1 {
      LineStartTail(lines, i - 1);
    }
  }

  // The joined text is the lines one after another with one line break between them.
  lemma {:induction false} JoinedIs(lines: seq<string>, i: nat)
    requires i < |lines|
    ensures var text, start := Joined(lines), LineStart(lines, i);
      && |text| + 1 == LineStart(lines, |lines|)
      && start + |lines[i]| <= |text| && text[start..start + |lines[i]|] == lines[i]
      && (i > 0 ==> start > 0 && text[start - 1] == '\n')
  {
    LineStartTail(lines, |lines|);
    if |lines| == 1 {
      assert LineStart(lines[1..], 0) == 0;
    } else {
      JoinedIs(lines[1..], if i == 0 then 0 else i - 1);
      JoinedOnTop(lines[0], Joined(lines[1..]), if i == 0 then 0 else LineStart(lines[1..], i - 1), |lines[i]|);
      if i > 0 {
        LineStartTail(lines, i);
      }
    }
  }

  // One more line on top of a joined text moves every part of that by its length and one.
  lemma JoinedOnTop(line: string, rest: string, start: nat, length: nat)
    ensures var text := line + "\n" + rest;
      && text[..|line|] == line && text[|line|] == '\n'
      && (start + length <= |rest| ==> text[|line| + 1 + start..|line| + 1 + start + length] == rest[start..start + length])
      && (0 < start <= |rest| ==> text[|line| + start] == rest[start - 1])
  {
  }

  // Which lines are kept: the nonempty ones, in their order.
  lemma {:induction false} NonEmptyLinesAre(lines: seq<string>, i: nat)
    requires i < |lines|
    ensures NonEmptyLines(lines) == NonEmptyLines(lines[..i]) + (if lines[i] == "" then [] else [lines[i]]) + NonEmptyLines(lines[i + 1..])
  {
    if i > 0 {
      NonEmptyLinesAre(lines[1..], i - 1);
      assert lines[1..][..i - 1] == lines[..i][1..] && lines[1..][i..] == lines[i + 1..];
    }
  }

  // There is a joined text unless all lines are empty, and it has just the others.
  lemma JoinedLinesAre(lines: seq<string>)
    ensures match JoinedLines(lines)
      case None => forall i :: 0 <= i < |lines| ==> lines[i] == ""
      case Some(text) => text == Joined(NonEmptyLines(lines)) && exists i :: 0 <= i < |lines| && lines[i] != ""
  {
  }

  // The text of an artifact: the lines of its actions, or else its first text that is not blank, or else
  // the lines of its segments.
  lemma ContentIs(payload: Payload, kind: Kind)
    requires payload.Object?
    ensures kind.Actions? && payload.actions.Some? ==> Content(payload, kind) == JoinedLines(payload.actions.value)
    ensures !(kind.Actions? && payload.actions.Some?) && (exists k :: 0 <= k < |payload.texts| && Trimmed(payload.texts[k]) != "") ==>
      exists k | 0 <= k < |payload.texts| && Trimmed(payload.texts[k]) != "" ::
        (forall j :: 0 <= j < k ==> Trimmed(payload.texts[j]) == "") && Content(payload, kind) == Some(Trimmed(payload.texts[k]))
    ensures !(kind.Actions? && payload.actions.Some?) && (forall k :: 0 <= k < |payload.texts| ==> Trimmed(payload.texts[k]) == "") ==>
      && (payload.segments.None? ==> Content(payload, kind).None?)
      && (payload.segments.Some? ==> exists lines: seq<string> | |lines| == |payload.segments.value| ::
            (forall i :: 0 <= i < |lines| ==> lines[i] == Line(payload.segments.value[i])) && Content(payload, kind) == JoinedLines(lines))
  {
    FirstTextIs(payload.texts);
    if payload.segments.Some? {
      var segments := payload.segments.value;
      var lines := seq(|segments|, i requires 0 <= i < |segments| => Line(segments[i]));
      assert forall i :: 0 <= i < |lines| ==> lines[i] == Line(segments[i]);
    }
  }

  lemma {:induction false} FirstTextIs(texts: seq<Option<string>>)
    ensures match FirstText(texts)
      case None => forall k :: 0 <= k < |texts| ==> Trimmed(texts[k]) == ""
      case Some(text) => exists k | 0 <= k < |texts| && text == Trimmed(texts[k]) != "" :: forall j :: 0 <= j < k ==> Trimmed(texts[j]) == ""
  {
    if texts != [] && Trimmed(texts[0]) == "" {
      FirstTextIs(texts[1..]);
      if FirstText(texts).Some? {
        var k :| 0 <= k < |texts[1..]| && FirstText(texts).value == Trimmed(texts[1..][k]) != "" && forall j :: 0 <= j < k ==> Trimmed(texts[1..][j]) == "";
        assert FirstText(texts).value == Trimmed(texts[k + 1]) != "";
        forall j | 0 <= j < k + 1 ensures Trimmed(texts[j]) == "" {
          if j > 0 { assert Trimmed(texts[1..][j - 1]) == ""; }
        }
      }
    }
  }

  // A transcript with any valid segment has content.
  lemma ValidSegmentGivesContent(payload: Payload, i: nat)
    requires payload.Object? && payload.segments.Some? && i < |payload.segments.value| && Valid(payload.segments.value[i])
    ensures Content(payload, Transcript).Some?
  {
    var segments := payload.segments.value;
    assert seq(|segments|, k requires 0 <= k < |segments| => Line(segments[k]))[i] != "";
  }

  // ---------- Building documents ----------

  function Title(kind: Kind, meetingTitle: string): string {
    var base := match kind
      case Transcript => "Meeting transcript"
      case Summary => "Meeting summary"
      case Actions => "Meeting actions";
    if meetingTitle != "" then base + ": " + meetingTitle else base
  }

  function MeetingTimestamp(a: Artifact): Option<Stamp> {
    if a.meeting.endedAt.Some? then a.meeting.endedAt
    else if a.meeting.startedAt.Some? then a.meeting.startedAt
    else if a.meeting.scheduledAt.Some? then a.meeting.scheduledAt
    else if a.updatedAt.Some? then a.updatedAt
    else a.createdAt
  }

  function SegmentTimestamp(a: Artifact, startMs: int): Timestamp {
    var started := a.meeting.startedAt;
    if started.Some? && started.value.isText && started.value.ms.Some? then Computed(started.value.ms.value + startMs)
    else Copied(MeetingTimestamp(a))
  }

  function SegmentDocument(id: string, a: Artifact, index: nat, segment: Segment): Document
    requires Valid(segment)
  {
    var start := Round(segment.startMs.value);
    var end := if segment.endMs.Some? && segment.endMs.value >= segment.startMs.value then Some(Round(segment.endMs.value)) else None;
    Document(OfSegment, SegmentId(id, index), Some(id), a.meeting, Trimmed(segment.speakerUserId), Trimmed(segment.speakerLabel),
      Title(a.kind, a.meeting.title), Trimmed(segment.text), start, end, [], SegmentTimestamp(a, start))
  }

  // The documents of the first n segments.
  function SegmentDocuments(id: string, a: Artifact, segments: seq<Segment>, n: nat): seq<Document>
    requires n <= |segments|
  {
    if n == 0 then []
    else
      SegmentDocuments(id, a, segments, n - 1)
      + if Valid(segments[n - 1]) then [SegmentDocument(id, a, n - 1, segments[n - 1])] else []
  }

  function TranscriptSegmentDocuments(id: string, a: Artifact): seq<Document> {
    if !a.kind.Transcript? || !a.payload.Object? || a.payload.segments.None? then []
    else SegmentDocuments(id, a, a.payload.segments.value, |a.payload.segments.value|)
  }

  // ---------- The second builder, of the migration ----------

  function MigrationSegmentDocument(id: string, a: Artifact, index: nat, segment: Segment): Option<Document> {
    if !Valid(segment) then None
    else
      var start := Round(segment.startMs.value);
      var end := if segment.endMs.Some? && segment.endMs.value >= segment.startMs.value then Some(Round(segment.endMs.value)) else None;
      Some(Document(OfSegment, SegmentId(id, index), Some(id), a.meeting, Trimmed(segment.speakerUserId), Trimmed(segment.speakerLabel),
        Title(Transcript, a.meeting.title), Trimmed(segment.text), start, end, [], SegmentTimestamp(a, start)))
  }

  function Present<T>(items: seq<Option<T>>): seq<T> {
    if items == [] then []
    else
      var last := items[|items| - 1];
      Present(items[..|items| - 1]) + if last.Some? then [last.value] else []
  }

  // Each segment mapped to its document or to nothing, and the nothings filtered out.
  function MigrationSegmentDocuments(id: string, a: Artifact): seq<Document> {
    var segments := if a.payload.Object? && a.payload.segments.Some? then a.payload.segments.value else [];
    Present(seq(|segments|, i requires 0 <= i < |segments| => MigrationSegmentDocument(id, a, i, segments[i])))
  }

  lemma {:induction false} BuildersAgreeUpTo(id: string, a: Artifact, segments: seq<Segment>, n: nat, mapped: seq<Option<Document>>)
    requires a.kind.Transcript? && n == |mapped| <= |segments|
    requires forall i | 0 <= i < n :: mapped[i] == MigrationSegmentDocument(id, a, i, segments[i])
    ensures Present(mapped) == SegmentDocuments(id, a, segments, n)
  {
    if n > 0 {
      BuildersAgreeUpTo(id, a, segments, n - 1, mapped[..n - 1]);
    }
  }

  // The two builders, written separately, give a transcript the same documents in the same order.
  lemma BuildersAgree(id: string, a: Artifact)
    requires a.kind.Transcript?
    ensures MigrationSegmentDocuments(id, a) == TranscriptSegmentDocuments(id, a)
  {
    var segments := if a.payload.Object? && a.payload.segments.Some? then a.payload.segments.value else [];
    BuildersAgreeUpTo(id, a, segments, |segments|,
      seq(|segments|, i requires 0 <= i < |segments| => MigrationSegmentDocument(id, a, i, segments[i])));
  }

  // ---------- The document of an artifact ----------

  function SpeakersAmong(segments: seq<Segment>, n: nat): seq<string>
    requires n <= |segments|
  {
    if n == 0 then []
    else
      var before := SpeakersAmong(segments, n - 1);
      var speaker := if segments[n - 1].Spoken? then Trimmed(segments[n - 1].speakerUserId) else "";
      if speaker == "" || speaker in before then before else before + [speaker]
  }

  function Speakers(a: Artifact): seq<string> {
    if !a.kind.Transcript? || !a.payload.Object? || a.payload.segments.None? then []
    else SpeakersAmong(a.payload.segments.value, |a.payload.segments.value|)
  }

  function ArtifactDocument(id: string, a: Artifact, content: string): Document {
    Document(OfArtifact(a.kind), id, None, a.meeting, a.meeting.host, "", Title(a.kind, a.meeting.title), content, 0, None,
      Speakers(a), Copied(MeetingTimestamp(a)))
  }

  // The document of an artifact holds its content, is by the host, and is dated by the meeting.
  lemma ArtifactTold(id: string, a: Artifact, content: string)
    ensures var doc := ArtifactDocument(id, a, content);
      && KeyOf(doc) == (OfArtifact(a.kind), id) && doc.transcript.None? && doc.meeting == a.meeting
      && doc.author == a.meeting.host && doc.byline == "" && doc.text == content && doc.timestamp.Copied?
      && doc.startMs == 0 && doc.endMs.None?
      && FirstPresent(doc.timestamp.stamp, [a.meeting.endedAt, a.meeting.startedAt, a.meeting.scheduledAt, a.updatedAt, a.createdAt])
      && (!a.kind.Transcript? ==> doc.speakers == [])
      && (a.kind.Transcript? && a.payload.Object? && a.payload.segments.Some? ==>
            forall speaker :: speaker in doc.speakers <==>
              speaker != "" && exists i | 0 <= i < |a.payload.segments.value| :: SpeaksIn(a.payload.segments.value[i], speaker))
  {
    hide MeetingTimestamp, FirstPresent, SpeaksIn;
    MeetingTimestampIs(a);
    if a.payload.Object? && a.payload.segments.Some? {
      var segments := a.payload.segments.value;
      forall speaker
        ensures speaker in SpeakersAmong(segments, |segments|) <==> speaker != "" && exists i | 0 <= i < |segments| :: SpeaksIn(segments[i], speaker)
      {
        SpeakersAre(segments, |segments|, speaker);
      }
    }
  }

  function TitleBase(kind: Kind): string {
    Title(kind, "")
  }

  // A title tells the kind of the artifact and the title of the meeting.
  lemma TitleTells(kind: Kind, meetingTitle: string, kind': Kind, meetingTitle': string)
    ensures Title(kind, meetingTitle) == Title(kind', meetingTitle') ==> kind == kind' && meetingTitle == meetingTitle'
    ensures TitleBase(kind) <= Title(kind, meetingTitle)
  {
    var t, t' := Title(kind, meetingTitle), Title(kind', meetingTitle');
    assert t[8] == (match kind case Transcript => 't' case Summary => 's' case Actions => 'a');
    assert t'[8] == (match kind' case Transcript => 't' case Summary => 's' case Actions => 'a');
    var n := |TitleBase(kind)|;
    assert meetingTitle != "" ==> t[n + 2..] == meetingTitle;
    assert meetingTitle' != "" && kind == kind' ==> t'[n + 2..] == meetingTitle';
  }

  lemma {:induction false} SegmentDocumentsAre(id: string, a: Artifact, segments: seq<Segment>, n: nat, doc: Document)
    requires n <= |segments|
    ensures doc in SegmentDocuments(id, a, segments, n) <==>
      exists i | 0 <= i < n :: Valid(segments[i]) && doc == SegmentDocument(id, a, i, segments[i])
  {
    hide Valid, SegmentDocument;
    if n > 0 {
      SegmentDocumentsAre(id, a, segments, n - 1, doc);
    }
  }

  // To the nearest integer; a half goes up.
  predicate Nearest(n: int, x: real) {
    x - 0.5 < n as real <= x + 0.5
  }

  predicate Inked(text: Option<string>) {
    text.Some? && Text.HasInk(text.value)
  }

  lemma TrimmedIs(text: Option<string>)
    ensures Trimmed(text) != "" <==> Inked(text)
  {
    if text.Some? {
      var _, _ := Text.TrimIs(text.value);
    }
  }

  // The stamp is the first of those that are present.
  ghost predicate FirstPresent(stamp: Option<Stamp>, stamps: seq<Option<Stamp>>) {
    if forall i :: 0 <= i < |stamps| ==> stamps[i].None? then stamp.None?
    else exists i | 0 <= i < |stamps| :: stamps[i] == stamp && stamp.Some? && forall j :: 0 <= j < i ==> stamps[j].None?
  }

  lemma MeetingTimestampIs(a: Artifact)
    ensures FirstPresent(MeetingTimestamp(a), [a.meeting.endedAt, a.meeting.startedAt, a.meeting.scheduledAt, a.updatedAt, a.createdAt])
  {
    var stamps := [a.meeting.endedAt, a.meeting.startedAt, a.meeting.scheduledAt, a.updatedAt, a.createdAt];
    assert stamps[0] == a.meeting.endedAt && stamps[1] == a.meeting.startedAt && stamps[2] == a.meeting.scheduledAt
        && stamps[3] == a.updatedAt && stamps[4] == a.createdAt;
  }

  // What the document of a segment tells about it: where it is from, who said what, its times to the
  // nearest millisecond, an end that never lies before the start, and when that was.
  ghost predicate Tells(doc: Document, id: string, a: Artifact, i: nat, segment: Segment) {
    && doc.docType.OfSegment? && doc.docId == id + ":" + Decimal(i) && doc.transcript == Some(id) && doc.meeting == a.meeting
    && segment.Spoken? && segment.speakerUserId.Some? && segment.speakerLabel.Some? && segment.text.Some? && segment.startMs.Some?
    && doc.author == Text.Trim(segment.speakerUserId.value) && doc.byline == Text.Trim(segment.speakerLabel.value)
    && doc.text == Text.Trim(segment.text.value) && doc.speakers == []
    && Nearest(doc.startMs, segment.startMs.value)
    && (doc.endMs.Some? <==> segment.endMs.Some? && segment.endMs.value >= segment.startMs.value)
    && (doc.endMs.Some? ==> Nearest(doc.endMs.value, segment.endMs.value) && doc.startMs <= doc.endMs.value)
    && (doc.timestamp.Computed? <==> a.meeting.startedAt.Some? && a.meeting.startedAt.value.isText && a.meeting.startedAt.value.ms.Some?)
    && (doc.timestamp.Computed? ==> doc.timestamp.ms == a.meeting.startedAt.value.ms.value + doc.startMs)
    && (doc.timestamp.Copied? ==>
          FirstPresent(doc.timestamp.stamp, [a.meeting.endedAt, a.meeting.startedAt, a.meeting.scheduledAt, a.updatedAt, a.createdAt]))
  }

  // Each document tells about its segment, and exactly the segments to be indexed have one.
  lemma SegmentsTold(id: string, a: Artifact, doc: Document)
    requires a.kind.Transcript? && a.payload.Object? && a.payload.segments.Some?
    ensures doc in TranscriptSegmentDocuments(id, a) ==>
      exists i | 0 <= i < |a.payload.segments.value| :: Tells(doc, id, a, i, a.payload.segments.value[i])
    ensures forall i | 0 <= i < |a.payload.segments.value| ::
      (exists d :: d in TranscriptSegmentDocuments(id, a) && d.docId == SegmentId(id, i)) <==> Indexed(a.payload.segments.value[i])
  {
    hide SegmentId, SegmentDocuments, SegmentDocument, Valid, Tells, Inked;
    var segments := a.payload.segments.value;
    SegmentDocumentsAre(id, a, segments, |segments|, doc);
    if doc in TranscriptSegmentDocuments(id, a) {
      var i :| 0 <= i < |segments| && Valid(segments[i]) && doc == SegmentDocument(id, a, i, segments[i]);
      SegmentTold(id, a, i, segments[i]);
    }
    forall i | 0 <= i < |segments|
      ensures (exists d :: d in TranscriptSegmentDocuments(id, a) && d.docId == SegmentId(id, i)) <==> Valid(segments[i])
      ensures Valid(segments[i]) <==> Indexed(segments[i])
    {
      DocumentOfSegment(id, a, i);
      ValidIs(segments[i]);
    }
  }

  // A spoken segment with a speaker, a name and a text that are not blank, and a start that is not negative.
  predicate Indexed(segment: Segment) {
    && segment.Spoken? && Inked(segment.speakerUserId) && Inked(segment.speakerLabel) && Inked(segment.text)
    && segment.startMs.Some? && segment.startMs.value >= 0.0
  }

  lemma ValidIs(segment: Segment)
    ensures Valid(segment) <==> Indexed(segment)
  {
    if segment.Spoken? {
      TrimmedIs(segment.speakerUserId);
      TrimmedIs(segment.speakerLabel);
      TrimmedIs(segment.text);
    }
  }

  lemma DocumentOfSegment(id: string, a: Artifact, i: nat)
    requires a.kind.Transcript? && a.payload.Object? && a.payload.segments.Some? && i < |a.payload.segments.value|
    ensures (exists d :: d in TranscriptSegmentDocuments(id, a) && d.docId == SegmentId(id, i)) <==> Valid(a.payload.segments.value[i])
  {
    hide SegmentId, SegmentTimestamp, SegmentDocuments, Valid;
    var segments := a.payload.segments.value;
    if Valid(segments[i]) {
      SegmentDocumentsAre(id, a, segments, |segments|, SegmentDocument(id, a, i, segments[i]));
      assert SegmentDocument(id, a, i, segments[i]).docId == SegmentId(id, i);
    }
    if d :| d in TranscriptSegmentDocuments(id, a) && d.docId == SegmentId(id, i) {
      SegmentDocumentsAre(id, a, segments, |segments|, d);
      var k :| 0 <= k < |segments| && Valid(segments[k]) && d == SegmentDocument(id, a, k, segments[k]);
      SegmentIdInjective(id, k, id, i);
    }
  }

  lemma SegmentTold(id: string, a: Artifact, i: nat, segment: Segment)
    requires Valid(segment)
    ensures Tells(SegmentDocument(id, a, i, segment), id, a, i, segment)
  {
    hide MeetingTimestamp, Decimal, FirstPresent;
    MeetingTimestampIs(a);
    assert Trimmed(None) == "";
  }

  // The speakers of a transcript, each once, in the order of their first segment.
  lemma {:induction false} SpeakersAre(segments: seq<Segment>, n: nat, speaker: string)
    requires n <= |segments|
    ensures speaker in SpeakersAmong(segments, n) <==> speaker != "" && exists i | 0 <= i < n :: SpeaksIn(segments[i], speaker)
    ensures forall i, j | 0 <= i < j < |SpeakersAmong(segments, n)| :: SpeakersAmong(segments, n)[i] != SpeakersAmong(segments, n)[j]
    ensures n > 0 ==> SpeakersAmong(segments, n - 1) <= SpeakersAmong(segments, n)
  {
    if n > 0 {
      SpeakersAre(segments, n - 1, speaker);
      SpeakerAdded(segments, n);
      hide SpeakersAmong, SpeaksIn;
      assert (exists i | 0 <= i < n :: SpeaksIn(segments[i], speaker)) <==>
        SpeaksIn(segments[n - 1], speaker) || exists i | 0 <= i < n - 1 :: SpeaksIn(segments[i], speaker);
    }
  }

  predicate SpeaksIn(segment: Segment, speaker: string) {
    segment.Spoken? && Trimmed(segment.speakerUserId) == speaker
  }

  // The speaker of the last segment comes last, if there is one who has not spoken before.
  lemma SpeakerAdded(segments: seq<Segment>, n: nat)
    requires 0 < n <= |segments|
    ensures var before := SpeakersAmong(segments, n - 1);
      || (SpeakersAmong(segments, n) == before
          && forall speaker :: SpeaksIn(segments[n - 1], speaker) ==> speaker == "" || speaker in before)
      || exists speaker | SpeaksIn(segments[n - 1], speaker) && speaker != "" && speaker !in before :: SpeakersAmong(segments, n) == before + [speaker]
  {
    if segments[n - 1].Spoken? {
      assert SpeaksIn(segments[n - 1], Trimmed(segments[n - 1].speakerUserId));
    }
  }

  predicate DistinctKeys(docs: seq<Document>) {
    forall i, j | 0 <= i < j < |docs| :: KeyOf(docs[i]) != KeyOf(docs[j])
  }

  lemma EarlierSegment(id: string, a: Artifact, segments: seq<Segment>, n: nat, doc: Document)
    requires n <= |segments| && doc in SegmentDocuments(id, a, segments, n)
    ensures doc.docId != SegmentId(id, n)
  {
    hide SegmentDocuments, SegmentId;
    SegmentDocumentsAre(id, a, segments, n, doc);
    var k :| 0 <= k < n && Valid(segments[k]) && doc == SegmentDocument(id, a, k, segments[k]);
    if doc.docId == SegmentId(id, n) {
      SegmentIdInjective(id, k, id, n);
    }
  }

  lemma {:induction false} SegmentKeysDistinct(id: string, a: Artifact, segments: seq<Segment>, n: nat)
    requires n <= |segments|
    ensures DistinctKeys(SegmentDocuments(id, a, segments, n))
  {
    if n > 0 {
      SegmentKeysDistinct(id, a, segments, n - 1);
      var before := SegmentDocuments(id, a, segments, n - 1);
      if Valid(segments[n - 1]) {
        hide SegmentDocuments;
        forall i | 0 <= i < |before| ensures before[i].docId != SegmentId(id, n - 1) {
          EarlierSegment(id, a, segments, n - 1, before[i]);
        }
      }
    }
  }

  // ---------- The table ----------

  function WithoutDocument(index: Index, docType: DocType, docId: string): Index {
    index - {(docType, docId)}
  }

  function WithoutSegments(index: Index, transcript: string): Index {
    map key | key in index && !(key.0.OfSegment? && (if index[key].transcript.Some? then index[key].transcript.value else "") == transcript) :: index[key]
  }

  function WithoutAllSegments(index: Index): Index {
    map key | key in index && !key.0.OfSegment? :: index[key]
  }

  function Upserted(index: Index, docs: seq<Document>): Index {
    if docs == [] then index
    else
      var last := docs[|docs| - 1];
      Upserted(index, docs[..|docs| - 1])[KeyOf(last) := last]
  }

  lemma {:induction false} UpsertedInParts(index: Index, docs: seq<Document>, more: seq<Document>)
    ensures Upserted(index, docs + more) == Upserted(Upserted(index, docs), more)
  {
    if more == [] {
      assert docs + more == docs;
    } else {
      var n := |more| - 1;
      assert (docs + more)[..|docs| + n] == docs + more[..n];
      UpsertedInParts(index, docs, more[..n]);
    }
  }

  lemma UpsertedChunk(index: Index, rows: seq<Document>, start: nat, end: nat)
    requires start <= end <= |rows|
    ensures Upserted(Upserted(index, rows[..start]), rows[start..end]) == Upserted(index, rows[..end])
    ensures rows[..|rows|] == rows
  {
    hide Upserted;
    UpsertedInParts(index, rows[..start], rows[start..end]);
    assert rows[..start] + rows[start..end] == rows[..end];
  }

  lemma ChunkDistinct(rows: seq<Document>, start: nat, end: nat)
    requires start <= end <= |rows| && DistinctKeys(rows)
    ensures DistinctKeys(rows[start..end])
  {
  }

  lemma UpsertedNone(index: Index, rows: seq<Document>)
    ensures Upserted(index, rows[..0]) == index && rows[..|rows|] == rows
  {
  }

  function ArtifactUpserted(index: Index, artifacts: Artifacts, id: string): Index {
    if id !in artifacts then index
    else
      var a := artifacts[id];
      var cleared := if a.kind.Transcript? then WithoutSegments(index, id) else index;
      var content := if a.ready then Content(a.payload, a.kind) else None;
      if content.None? then WithoutDocument(cleared, OfArtifact(a.kind), id)
      else Upserted(cleared, [ArtifactDocument(id, a, content.value)] + TranscriptSegmentDocuments(id, a))
  }

  function ArtifactRemoved(index: Index, kind: Kind, id: string): Index {
    WithoutDocument(if kind.Transcript? then WithoutSegments(index, id) else index, OfArtifact(kind), id)
  }

  // The artifacts that a rebuild reads, in any order.
  ghost predicate Listing(artifacts: Artifacts, ids: seq<string>) {
    && (forall i, j | 0 <= i < j < |ids| :: ids[i] != ids[j])
    && (forall id :: id in ids <==> id in artifacts && artifacts[id].kind.Transcript? && artifacts[id].ready && !artifacts[id].payload.NoPayload?)
  }

  predicate Transcripts(artifacts: Artifacts, ids: seq<string>) {
    forall i | 0 <= i < |ids| :: ids[i] in artifacts && artifacts[ids[i]].kind.Transcript?
  }

  function AllSegmentDocuments(artifacts: Artifacts, ids: seq<string>): seq<Document>
    requires Transcripts(artifacts, ids)
  {
    if ids == [] then []
    else
      var n := |ids| - 1;
      AllSegmentDocuments(artifacts, ids[..n]) + MigrationSegmentDocuments(ids[n], artifacts[ids[n]])
  }

  const CHUNK_SIZE := 250

  class SearchDocuments {
    var index: Index

    constructor ()
      ensures index == map[]
    {
      index := map[];
    }

    method RemoveByDocument(docType: DocType, docId: string)
      modifies this
      ensures index == WithoutDocument(old(index), docType, docId)
    {
      index := index - {(docType, docId)};
    }

    method RemoveTranscriptSegments(transcript: string)
      modifies this
      ensures index == WithoutSegments(old(index), transcript)
    {
      index := WithoutSegments(index, transcript);
    }

    method RemoveSearchDocument(kind: Kind, id: string)
      modifies this
      ensures index == ArtifactRemoved(old(index), kind, id)
    {
      if kind.Transcript? {
        RemoveTranscriptSegments(id);
      }
      RemoveByDocument(OfArtifact(kind), id);
    }

    method UpsertSearchDocuments(payloads: seq<Document>)
      modifies this
      ensures index == Upserted(old(index), payloads)
    {
      for n := 0 to |payloads|
        invariant index == Upserted(old(index), payloads[..n])
      {
        assert payloads[..n + 1][..n] == payloads[..n];
        index := index[KeyOf(payloads[n]) := payloads[n]];
      }
      assert payloads[..|payloads|] == payloads;
    }

    method UpsertMeetingArtifact(artifacts: Artifacts, id: string)
      modifies this
      ensures index == ArtifactUpserted(old(index), artifacts, id)
    {
      if id !in artifacts {
        return;
      }
      var a := artifacts[id];
      if a.kind.Transcript? {
        RemoveTranscriptSegments(id);
      }
      var content := if a.ready then Content(a.payload, a.kind) else None;
      if content.None? {
        RemoveByDocument(OfArtifact(a.kind), id);
        return;
      }
      UpsertSearchDocuments([ArtifactDocument(id, a, content.value)] + TranscriptSegmentDocuments(id, a));
    }

    // One insert statement; the database refuses it if two of its rows have the same key.
    method InsertChunk(chunk: seq<Document>)
      requires DistinctKeys(chunk)
      modifies this
      ensures index == Upserted(old(index), chunk)
    {
      index := Upserted(index, chunk);
    }

    method UpsertRows(rows: seq<Document>)
      requires DistinctKeys(rows)
      modifies this
      ensures index == Upserted(old(index), rows)
    {
      hide Upserted, DistinctKeys;
      UpsertedNone(index, rows);
      var start := 0;
      while start < |rows|
        invariant 0 <= start
        invariant index == Upserted(old(index), if start <= |rows| then rows[..start] else rows)
      {
        var end := if start + CHUNK_SIZE <= |rows| then start + CHUNK_SIZE else |rows|;
        UpsertedChunk(old(index), rows, start, end);
        ChunkDistinct(rows, start, end);
        InsertChunk(rows[start..end]);
        start := start + CHUNK_SIZE;
      }
    }

    method Rebuild(artifacts: Artifacts, ids: seq<string>)
      requires Listing(artifacts, ids)
      modifies this
      ensures index == Rebuilt(old(index), artifacts, ids)
    {
      index := WithoutAllSegments(index);
      AllSegmentKeysDistinct(artifacts, ids);
      UpsertRows(AllSegmentDocuments(artifacts, ids));
    }
  }

  lemma {:induction false} OwnSegments(id: string, a: Artifact, doc: Document)
    requires doc in TranscriptSegmentDocuments(id, a)
    ensures doc.docType.OfSegment? && doc.transcript == Some(id) && exists i: nat :: doc.docId == SegmentId(id, i)
  {
    var segments := a.payload.segments.value;
    SegmentDocumentsAre(id, a, segments, |segments|, doc);
    var i :| 0 <= i < |segments| && Valid(segments[i]) && doc == SegmentDocument(id, a, i, segments[i]);
    assert doc.docId == SegmentId(id, i);
  }

  // Documents of different transcripts never share a key.
  lemma SegmentsOfOthers(id: string, a: Artifact, doc: Document, id': string, a': Artifact, doc': Document)
    requires doc in TranscriptSegmentDocuments(id, a) && doc' in TranscriptSegmentDocuments(id', a') && KeyOf(doc) == KeyOf(doc')
    ensures id == id'
  {
    OwnSegments(id, a, doc);
    OwnSegments(id', a', doc');
    var i: nat :| doc.docId == SegmentId(id, i);
    var j: nat :| doc'.docId == SegmentId(id', j);
    SegmentIdInjective(id, i, id', j);
  }

  lemma OwnKeysDistinct(id: string, a: Artifact)
    ensures DistinctKeys(TranscriptSegmentDocuments(id, a))
  {
    if a.kind.Transcript? && a.payload.Object? && a.payload.segments.Some? {
      SegmentKeysDistinct(id, a, a.payload.segments.value, |a.payload.segments.value|);
    }
  }

  lemma {:induction false} AllSegmentsAre(artifacts: Artifacts, ids: seq<string>, doc: Document)
    requires Transcripts(artifacts, ids)
    ensures doc in AllSegmentDocuments(artifacts, ids) <==>
      doc.transcript.Some? && doc.transcript.value in ids && doc in TranscriptSegmentDocuments(doc.transcript.value, artifacts[doc.transcript.value])
  {
    if ids != [] {
      var n := |ids| - 1;
      BuildersAgree(ids[n], artifacts[ids[n]]);
      AllSegmentsAre(artifacts, ids[..n], doc);
      if doc in TranscriptSegmentDocuments(ids[n], artifacts[ids[n]]) {
        OwnSegments(ids[n], artifacts[ids[n]], doc);
      }
      assert forall id :: id in ids <==> id in ids[..n] || id == ids[n];
    }
  }

  // The rebuild never gives the database two rows with one key.
  lemma {:induction false} AllSegmentKeysDistinct(artifacts: Artifacts, ids: seq<string>)
    requires Transcripts(artifacts, ids)
    requires forall i, j | 0 <= i < j < |ids| :: ids[i] != ids[j]
    ensures DistinctKeys(AllSegmentDocuments(artifacts, ids))
  {
    if ids != [] {
      var n := |ids| - 1;
      BuildersAgree(ids[n], artifacts[ids[n]]);
      AllSegmentKeysDistinct(artifacts, ids[..n]);
      OwnKeysDistinct(ids[n], artifacts[ids[n]]);
      var before, own := AllSegmentDocuments(artifacts, ids[..n]), TranscriptSegmentDocuments(ids[n], artifacts[ids[n]]);
      forall i, j | 0 <= i < |before| && 0 <= j < |own| ensures KeyOf(before[i]) != KeyOf(own[j]) {
        assert before[i] in before && own[j] in own;
        AllSegmentsAre(artifacts, ids[..n], before[i]);
        if KeyOf(before[i]) == KeyOf(own[j]) {
          var id := before[i].transcript.value;
          SegmentsOfOthers(id, artifacts[id], before[i], ids[n], artifacts[ids[n]], own[j]);
        }
      }
    }
  }

  // ---------- What the index should hold ----------

  // The documents of one artifact, each kind worked out on its own.
  predicate ExpectedOf(id: string, a: Artifact, doc: Document) {
    || (a.ready && doc in TranscriptSegmentDocuments(id, a))
    || (a.ready && Content(a.payload, a.kind).Some? && doc == ArtifactDocument(id, a, Content(a.payload, a.kind).value))
  }

  function SourceOf(doc: Document): string {
    if doc.transcript.Some? then doc.transcript.value else doc.docId
  }

  predicate Expected(artifacts: Artifacts, doc: Document) {
    SourceOf(doc) in artifacts && ExpectedOf(SourceOf(doc), artifacts[SourceOf(doc)], doc)
  }

  // The index holds exactly the expected documents, beside those of other types.
  ghost predicate Exact(index: Index, artifacts: Artifacts) {
    && WellKeyed(index)
    && forall doc: Document :: !doc.docType.OfOther? ==> (Has(index, doc) <==> Expected(artifacts, doc))
  }

  // No content means no document at all: the early return forgets no segment.
  lemma NoContentNoSegments(id: string, a: Artifact, doc: Document)
    requires a.kind.Transcript? && Content(a.payload, a.kind).None?
    ensures doc !in TranscriptSegmentDocuments(id, a)
  {
    if a.payload.Object? && a.payload.segments.Some? {
      var segments := a.payload.segments.value;
      SegmentDocumentsAre(id, a, segments, |segments|, doc);
      if doc in TranscriptSegmentDocuments(id, a) {
        var i :| 0 <= i < |segments| && Valid(segments[i]) && doc == SegmentDocument(id, a, i, segments[i]);
        ValidSegmentGivesContent(a.payload, i);
      }
    }
  }

  lemma {:induction false} UpsertedHas(index: Index, docs: seq<Document>, doc: Document)
    requires DistinctKeys(docs)
    ensures Has(Upserted(index, docs), doc) <==>
      doc in docs || (Has(index, doc) && forall i | 0 <= i < |docs| :: KeyOf(docs[i]) != KeyOf(doc))
  {
    if docs != [] {
      var n := |docs| - 1;
      UpsertedHas(index, docs[..n], doc);
      assert doc in docs <==> doc in docs[..n] || doc == docs[n];
      if doc in docs[..n] {
        var i :| 0 <= i < n && docs[i] == doc;
      }
    }
  }

  lemma {:induction false} UpsertedWellKeyed(index: Index, docs: seq<Document>)
    requires WellKeyed(index)
    ensures WellKeyed(Upserted(index, docs))
  {
    if docs != [] {
      UpsertedWellKeyed(index, docs[..|docs| - 1]);
    }
  }

  lemma ExpectedKey(id: string, a: Artifact, doc: Document)
    requires ExpectedOf(id, a, doc)
    ensures SourceOf(doc) == id
    ensures || (doc.docType == OfArtifact(a.kind) && doc.docId == id && doc.transcript.None?)
            || (doc.docType.OfSegment? && doc.transcript == Some(id) && a.kind.Transcript?)
  {
    if doc in TranscriptSegmentDocuments(id, a) {
      OwnSegments(id, a, doc);
    }
  }

  // ---------- Upkeep ----------

  lemma SegmentsCleared(index: Index, id: string, doc: Document)
    requires WellKeyed(index)
    ensures WellKeyed(WithoutSegments(index, id))
    ensures doc.docType.OfSegment? && doc.transcript.Some? ==>
      (Has(WithoutSegments(index, id), doc) <==> Has(index, doc) && doc.transcript != Some(id))
    ensures !doc.docType.OfSegment? ==> (Has(WithoutSegments(index, id), doc) <==> Has(index, doc))
  {
  }

  // What an upsert leaves behind of an artifact that was there before under another kind.
  predicate Stale(artifacts: Artifacts, id: string, a: Artifact, doc: Document) {
    id in artifacts && artifacts[id].kind != a.kind && ExpectedOf(id, artifacts[id], doc)
  }

  lemma NewKeysDistinct(id: string, a: Artifact, content: string)
    ensures DistinctKeys([ArtifactDocument(id, a, content)] + TranscriptSegmentDocuments(id, a))
  {
    var segments := TranscriptSegmentDocuments(id, a);
    OwnKeysDistinct(id, a);
    forall i | 0 <= i < |segments| ensures segments[i].docType.OfSegment? {
      OwnSegments(id, a, segments[i]);
    }
  }

  // An expected document of another artifact shares no key with the new ones.
  lemma OthersKeepTheirKeys(id: string, a: Artifact, other: string, b: Artifact, doc: Document, mine: Document)
    requires id != other && ExpectedOf(id, a, mine) && ExpectedOf(other, b, doc)
    ensures KeyOf(mine) != KeyOf(doc)
  {
    ExpectedKey(id, a, mine);
    ExpectedKey(other, b, doc);
    if mine.docType.OfSegment? && doc.docType.OfSegment? && KeyOf(mine) == KeyOf(doc) {
      SegmentsOfOthers(id, a, mine, other, b, doc);
    }
  }

  lemma NewDocuments(id: string, a: Artifact, content: string, doc: Document)
    requires a.ready && Content(a.payload, a.kind) == Some(content)
    ensures doc in [ArtifactDocument(id, a, content)] + TranscriptSegmentDocuments(id, a) <==> ExpectedOf(id, a, doc)
  {
  }

  lemma NothingExpected(id: string, a: Artifact, doc: Document)
    requires !a.ready || Content(a.payload, a.kind).None?
    ensures !ExpectedOf(id, a, doc)
  {
    if a.kind.Transcript? && a.ready {
      NoContentNoSegments(id, a, doc);
    }
  }

  // The index of an upsert without the segments that it clears first.
  function Cleared(index: Index, a: Artifact, id: string): Index {
    if a.kind.Transcript? then WithoutSegments(index, id) else index
  }

  lemma ClearedHolds(index: Index, artifacts: Artifacts, id: string, a: Artifact, doc: Document)
    requires Exact(index, artifacts) && !doc.docType.OfOther?
    ensures Has(Cleared(index, a, id), doc) <==>
      Expected(artifacts, doc) && !(a.kind.Transcript? && doc.docType.OfSegment? && SourceOf(doc) == id)
  {
    hide ExpectedOf, WithoutSegments;
    SegmentsCleared(index, id, doc);
    if Expected(artifacts, doc) {
      ExpectedKey(SourceOf(doc), artifacts[SourceOf(doc)], doc);
    } else if a.kind.Transcript? {
      ClearedOnlyRemoves(index, id, doc);
    }
  }

  lemma ClearedOnlyRemoves(index: Index, id: string, doc: Document)
    ensures Has(WithoutSegments(index, id), doc) ==> Has(index, doc)
  {
  }

  // What the index holds of an artifact after its upsert.
  lemma UpsertHolds(index: Index, artifacts: Artifacts, id: string, a: Artifact, doc: Document)
    requires Exact(index, artifacts) && !doc.docType.OfOther?
    ensures Has(ArtifactUpserted(index, artifacts[id := a], id), doc) <==>
      Expected(artifacts[id := a], doc) || Stale(artifacts, id, a, doc)
  {
    hide ExpectedOf, Content, ArtifactDocument, TranscriptSegmentDocuments, Cleared, Upserted, WithoutSegments, DistinctKeys, Exact, WellKeyed;
    var cleared := Cleared(index, a, id);
    ClearedHolds(index, artifacts, id, a, doc);
    assert cleared == if a.kind.Transcript? then WithoutSegments(index, id) else index by { ClearedIs(index, a, id); }
    var content := if a.ready then Content(a.payload, a.kind) else None;
    if id in artifacts && ExpectedOf(id, artifacts[id], doc) {
      ExpectedKey(id, artifacts[id], doc);
    }
    if SourceOf(doc) in artifacts && ExpectedOf(SourceOf(doc), artifacts[SourceOf(doc)], doc) {
      ExpectedKey(SourceOf(doc), artifacts[SourceOf(doc)], doc);
    }
    if ExpectedOf(id, a, doc) {
      ExpectedKey(id, a, doc);
    }
    if content.None? {
      NothingExpected(id, a, doc);
    } else {
      var docs := [ArtifactDocument(id, a, content.value)] + TranscriptSegmentDocuments(id, a);
      NewKeysDistinct(id, a, content.value);
      UpsertedHas(cleared, docs, doc);
      NewDocuments(id, a, content.value, doc);
      if Expected(artifacts, doc) && !ExpectedOf(id, a, doc) {
        KeysTaken(artifacts, id, a, content.value, doc);
      }
    }
  }

  lemma ClearedIs(index: Index, a: Artifact, id: string)
    ensures Cleared(index, a, id) == if a.kind.Transcript? then WithoutSegments(index, id) else index
  {
  }

  // An upsert takes the key of an older document exactly when it is one of the artifact itself under
  // the same kind, or a segment of it.
  lemma KeysTaken(artifacts: Artifacts, id: string, a: Artifact, content: string, doc: Document)
    requires Expected(artifacts, doc) && a.ready && Content(a.payload, a.kind) == Some(content)
    ensures var docs := [ArtifactDocument(id, a, content)] + TranscriptSegmentDocuments(id, a);
      && (SourceOf(doc) != id || (artifacts[id].kind != a.kind) ==> forall i | 0 <= i < |docs| :: KeyOf(docs[i]) != KeyOf(doc))
      && (SourceOf(doc) == id && doc.docType == OfArtifact(a.kind) ==> KeyOf(docs[0]) == KeyOf(doc))
  {
    hide ExpectedOf, Content, TranscriptSegmentDocuments;
    var docs := [ArtifactDocument(id, a, content)] + TranscriptSegmentDocuments(id, a);
    ExpectedKey(SourceOf(doc), artifacts[SourceOf(doc)], doc);
    if SourceOf(doc) != id || artifacts[id].kind != a.kind {
      forall i | 0 <= i < |docs| ensures KeyOf(docs[i]) != KeyOf(doc) {
        NewDocuments(id, a, content, docs[i]);
        ExpectedKey(id, a, docs[i]);
        if SourceOf(doc) != id {
          OthersKeepTheirKeys(id, a, SourceOf(doc), artifacts[SourceOf(doc)], doc, docs[i]);
        }
      }
    }
  }

  lemma UpsertWellKeyed(index: Index, artifacts: Artifacts, id: string)
    requires WellKeyed(index)
    ensures WellKeyed(ArtifactUpserted(index, artifacts, id))
  {
    hide Content, TranscriptSegmentDocuments, ArtifactDocument;
    if id in artifacts {
      var a := artifacts[id];
      var cleared := if a.kind.Transcript? then WithoutSegments(index, id) else index;
      var content := if a.ready then Content(a.payload, a.kind) else None;
      if content.Some? {
        UpsertedWellKeyed(cleared, [ArtifactDocument(id, a, content.value)] + TranscriptSegmentDocuments(id, a));
      }
    }
  }

  // The artifact keeps its kind, or had nothing in the index.
  predicate KeepsKind(artifacts: Artifacts, id: string, a: Artifact) {
    id !in artifacts || artifacts[id].kind == a.kind
    || !artifacts[id].ready || Content(artifacts[id].payload, artifacts[id].kind).None?
  }

  // A change of an artifact with its upsert keeps the index exact if and only if the artifact keeps its
  // kind or had nothing in the index; otherwise the documents of the old kind stay behind.
  lemma UpsertKeepsExactIff(index: Index, artifacts: Artifacts, id: string, a: Artifact)
    requires Exact(index, artifacts)
    ensures Exact(ArtifactUpserted(index, artifacts[id := a], id), artifacts[id := a]) <==> KeepsKind(artifacts, id, a)
  {
    hide Content, ArtifactUpserted, ArtifactDocument, TranscriptSegmentDocuments, WellKeyed;
    var after := ArtifactUpserted(index, artifacts[id := a], id);
    UpsertWellKeyed(index, artifacts[id := a], id);
    forall doc: Document | !doc.docType.OfOther?
      ensures Has(after, doc) <==> Expected(artifacts[id := a], doc) || Stale(artifacts, id, a, doc)
      ensures KeepsKind(artifacts, id, a) ==> !Stale(artifacts, id, a, doc)
    {
      UpsertHolds(index, artifacts, id, a, doc);
      if id in artifacts && (!artifacts[id].ready || Content(artifacts[id].payload, artifacts[id].kind).None?) {
        NothingExpected(id, artifacts[id], doc);
      }
    }
    if !KeepsKind(artifacts, id, a) {
      var old' := artifacts[id];
      var left := ArtifactDocument(id, old', Content(old'.payload, old'.kind).value);
      ArtifactDocumentIs(id, old', Content(old'.payload, old'.kind).value);
      assert Stale(artifacts, id, a, left);
      assert !Expected(artifacts[id := a], left) by {
        if ExpectedOf(id, a, left) {
          ExpectedKey(id, a, left);
        }
      }
    }
  }

  lemma ArtifactDocumentIs(id: string, a: Artifact, content: string)
    ensures var doc := ArtifactDocument(id, a, content);
      doc.docType == OfArtifact(a.kind) && doc.docId == id && doc.transcript.None?
  {
  }

  // A removal of an artifact with that of its documents keeps the index exact.
  lemma RemoveKeepsExact(index: Index, artifacts: Artifacts, id: string)
    requires Exact(index, artifacts) && id in artifacts
    ensures Exact(ArtifactRemoved(index, artifacts[id].kind, id), artifacts - {id})
  {
    hide ExpectedOf, WithoutSegments;
    var a := artifacts[id];
    var after := ArtifactRemoved(index, a.kind, id);
    ClearedIs(index, a, id);
    if a.kind.Transcript? {
      SegmentsStayKeyed(index, id);
    }
    forall doc: Document | !doc.docType.OfOther? ensures Has(after, doc) <==> Expected(artifacts - {id}, doc) {
      ClearedHolds(index, artifacts, id, a, doc);
      if Expected(artifacts, doc) {
        ExpectedKey(SourceOf(doc), artifacts[SourceOf(doc)], doc);
      }
    }
  }

  lemma SegmentsStayKeyed(index: Index, id: string)
    requires WellKeyed(index)
    ensures WellKeyed(WithoutSegments(index, id))
  {
  }

  // ---------- Runs of changes ----------

  datatype Change = Put(id: string, artifact: Artifact) | Remove(id: string)

  datatype World = World(artifacts: Artifacts, index: Index)

  predicate Allowed(w: World, change: Change) {
    match change
    case Put(id, a) => KeepsKind(w.artifacts, id, a)
    case Remove(id) => id in w.artifacts
  }

  function Next(w: World, change: Change): World
    requires Allowed(w, change)
  {
    match change
    case Put(id, a) => World(w.artifacts[id := a], ArtifactUpserted(w.index, w.artifacts[id := a], id))
    case Remove(id) => World(w.artifacts - {id}, ArtifactRemoved(w.index, w.artifacts[id].kind, id))
  }

  predicate Legal(w: World, changes: seq<Change>)
    decreases |changes|
  {
    changes == [] || (Allowed(w, changes[0]) && Legal(Next(w, changes[0]), changes[1..]))
  }

  function Run(w: World, changes: seq<Change>): World
    requires Legal(w, changes)
    decreases |changes|
  {
    if changes == [] then w else Run(Next(w, changes[0]), changes[1..])
  }

  // Over any run of changes, each followed by its upsert or removal, the index stays exact.
  lemma {:induction false} RunKeepsExact(w: World, changes: seq<Change>)
    requires Exact(w.index, w.artifacts) && Legal(w, changes)
    ensures Exact(Run(w, changes).index, Run(w, changes).artifacts)
    decreases |changes|
  {
    hide Exact, ArtifactUpserted, ArtifactRemoved, KeepsKind;
    if changes != [] {
      match changes[0] {
        case Put(id, a) => UpsertKeepsExactIff(w.index, w.artifacts, id, a);
        case Remove(id) => RemoveKeepsExact(w.index, w.artifacts, id);
      }
      RunKeepsExact(Next(w, changes[0]), changes[1..]);
    }
  }

  // ---------- The full rebuild ----------

  function Rebuilt(index: Index, artifacts: Artifacts, ids: seq<string>): Index
    requires Transcripts(artifacts, ids)
  {
    Upserted(WithoutAllSegments(index), AllSegmentDocuments(artifacts, ids))
  }

  lemma SegmentsOfTheReady(artifacts: Artifacts, ids: seq<string>, doc: Document)
    requires Listing(artifacts, ids) && doc.docType.OfSegment?
    ensures doc in AllSegmentDocuments(artifacts, ids) <==> Expected(artifacts, doc)
  {
    hide AllSegmentDocuments;
    AllSegmentsAre(artifacts, ids, doc);
    if doc.transcript.None? && SourceOf(doc) in artifacts && ExpectedOf(SourceOf(doc), artifacts[SourceOf(doc)], doc) {
      ExpectedKey(SourceOf(doc), artifacts[SourceOf(doc)], doc);
    }
  }

  lemma AllAreSegments(artifacts: Artifacts, ids: seq<string>, doc: Document)
    requires Transcripts(artifacts, ids)
    requires doc in AllSegmentDocuments(artifacts, ids)
    ensures doc.docType.OfSegment?
  {
    AllSegmentsAre(artifacts, ids, doc);
    OwnSegments(doc.transcript.value, artifacts[doc.transcript.value], doc);
  }

  // Whatever the index held: after a rebuild its segments are exactly the expected ones, and all other
  // documents are what they were.
  lemma RebuildHolds(index: Index, artifacts: Artifacts, ids: seq<string>, doc: Document)
    requires WellKeyed(index) && Listing(artifacts, ids)
    ensures Has(Rebuilt(index, artifacts, ids), doc) <==> if doc.docType.OfSegment? then Expected(artifacts, doc) else Has(index, doc)
  {
    hide AllSegmentDocuments, Expected, Upserted, DistinctKeys;
    var docs := AllSegmentDocuments(artifacts, ids);
    AllSegmentKeysDistinct(artifacts, ids);
    UpsertedHas(WithoutAllSegments(index), docs, doc);
    if doc.docType.OfSegment? {
      SegmentsOfTheReady(artifacts, ids, doc);
    } else {
      forall i | 0 <= i < |docs| ensures KeyOf(docs[i]) != KeyOf(doc) && docs[i] != doc {
        AllAreSegments(artifacts, ids, docs[i]);
      }
    }
  }

  // Two indexes that hold the same documents are the same.
  lemma SameDocuments(a: Index, b: Index)
    requires WellKeyed(a) && WellKeyed(b)
    requires forall doc :: Has(a, doc) <==> Has(b, doc)
    ensures a == b
  {
    forall key ensures key in a <==> key in b
    {
      assert key in a ==> Has(a, a[key]);
      assert key in b ==> Has(b, b[key]);
    }
    forall key | key in a ensures a[key] == b[key] {
      assert Has(a, a[key]);
    }
  }

  // The upkeep and the full rebuild agree: on an index kept exact, a rebuild in any order changes
  // nothing at all.
  lemma UpkeepEqualsRebuild(index: Index, artifacts: Artifacts, ids: seq<string>)
    requires Exact(index, artifacts) && Listing(artifacts, ids)
    ensures Rebuilt(index, artifacts, ids) == index
  {
    hide Expected, Rebuilt;
    forall doc ensures Has(Rebuilt(index, artifacts, ids), doc) <==> Has(index, doc) {
      RebuildHolds(index, artifacts, ids, doc);
    }
    RebuiltWellKeyed(index, artifacts, ids);
    SameDocuments(Rebuilt(index, artifacts, ids), index);
  }

  lemma RebuiltWellKeyed(index: Index, artifacts: Artifacts, ids: seq<string>)
    requires WellKeyed(index) && Transcripts(artifacts, ids)
    ensures WellKeyed(Rebuilt(index, artifacts, ids))
  {
    hide AllSegmentDocuments;
    UpsertedWellKeyed(WithoutAllSegments(index), AllSegmentDocuments(artifacts, ids));
  }
}
