/** `test_convert_ics_csv.py`: one CSV record per calendar event, with the
    event's final status decided from its organizer, participation status
    and event status. The regular-expression scan of the calendar text is
    not modelled: each event block arrives as the fields the script's
    patterns extract from it. */
module IcsEvents {
  import opened Wrappers
  import Strings

  /** The values `PARTSTAT=(ACCEPTED|DECLINED|TENTATIVE|NEEDS-ACTION)` accepts. */
  datatype PartStat = Accepted | Declined | Tentative | NeedsAction

  /** The values `STATUS:(CONFIRMED|TENTATIVE|CANCELLED)` accepts. */
  datatype EventStatus = Confirmed | Provisional | Cancelled

  /** The text after `ORGANIZER:`, up to the end of its line. The pattern's
      `.+` only matches a non-empty remainder. */
  type OrganizerText = s: string | |s| > 0 witness "x"

  /** What the six patterns find in one `BEGIN:VEVENT ... END:VEVENT` block. */
  datatype EventFields = EventFields(
    summary: Option<string>,
    start: Option<string>,
    end: Option<string>,
    partstat: Option<PartStat>,
    status: Option<EventStatus>,
    organizer: Option<OrganizerText>)

  /** One output row, by column. */
  datatype Record = Record(title: string, start: string, end: string, finalStatus: string, organizer: string)

  const Header: seq<string> := ["Titre", "D\U{e9}but", "Fin", "Statut final", "Organisateur"]
  const Unknown := "Inconnu"
  const Me := "ME"
  const Mailto := "mailto:"

  function PartStatText(p: PartStat): string {
    match p
    case Accepted => "ACCEPTED"
    case Declined => "DECLINED"
    case Tentative => "TENTATIVE"
    case NeedsAction => "NEEDS-ACTION"
  }

  function EventStatusText(s: EventStatus): string {
    match s
    case Confirmed => "CONFIRMED"
    case Provisional => "TENTATIVE"
    case Cancelled => "CANCELLED"
  }

  /** Every value the final status can take. */
  const KnownStatuses: set<string> :=
    {"ACCEPTED", "DECLINED", "TENTATIVE", "NEEDS-ACTION", "CONFIRMED", "CANCELLED", Unknown}

  /** The group `(.+)` of `(?:mailto:)?(.+)`: a leading "mailto:" is skipped
      when something follows it; "mailto:" alone is kept, as the optional
      group then backtracks so that `.+` can match. */
  function OrganizerValue(text: OrganizerText): (v: string)
    ensures |v| > 0
    ensures v == text || Mailto + v == text
    ensures Strings.StartsWith(text, Mailto) && |text| > |Mailto| ==> Mailto + v == text
    ensures !Strings.StartsWith(text, Mailto) ==> v == text
  {
    if Strings.StartsWith(text, Mailto) && |text| > |Mailto| then
      assert text == Mailto + text[|Mailto|..];
      text[|Mailto|..]
    else text
  }

  /** The final status and organizer of an event. */
  function Resolve(f: EventFields): (r: (string, string))
    ensures r.0 in KnownStatuses
    ensures f.organizer.None? ==> r == ("CONFIRMED", Me)
    ensures f.organizer.Some? ==> r.1 == OrganizerValue(f.organizer.value)
    ensures f.organizer.Some? && f.partstat.Some? ==> r.0 == PartStatText(f.partstat.value)
    ensures f.organizer.Some? && f.partstat.None? && f.status.Some? ==> r.0 == EventStatusText(f.status.value)
    ensures r.0 == Unknown <==> f.organizer.Some? && f.partstat.None? && f.status.None?
  {
    match f.organizer
    case None => ("CONFIRMED", Me)
    case Some(text) =>
      var status :=
        match f.partstat
        case Some(p) => PartStatText(p)
        case None =>
          match f.status
          case Some(s) => EventStatusText(s)
          case None => Unknown;
      (status, OrganizerValue(text))
  }

  /** The record `parse_ics` appends for one event; absent fields become "". */
  function ToRecord(f: EventFields): (r: Record)
    ensures r.title == (if f.summary.Some? then f.summary.value else "")
    ensures r.start == (if f.start.Some? then f.start.value else "")
    ensures r.end == (if f.end.Some? then f.end.value else "")
    ensures (r.finalStatus, r.organizer) == Resolve(f)
  {
    var (status, organizer) := Resolve(f);
    Record(f.summary.GetOr(""), f.start.GetOr(""), f.end.GetOr(""), status, organizer)
  }

  /** `parse_ics` over the event blocks in file order. */
  method ParseIcs(blocks: seq<EventFields>) returns (events: seq<Record>)
    ensures |events| == |blocks|
    ensures forall i :: 0 <= i < |blocks| ==> events[i] == ToRecord(blocks[i])
  {
    events := [];
    for k := 0 to |blocks|
      invariant |events| == k
      invariant forall i :: 0 <= i < k ==> events[i] == ToRecord(blocks[i])
    {
      events := events + [ToRecord(blocks[k])];
    }
  }

  /** The dictionary `parse_ics` builds for a record. */
  function AsDict(r: Record): map<string, string> {
    map[Header[0] := r.title, Header[1] := r.start, Header[2] := r.end,
        Header[3] := r.finalStatus, Header[4] := r.organizer]
  }

  /** The error `csv.DictWriter` raises for keys that are not field names. */
  datatype WriteError = ExtraFields(keys: set<string>)

  /** The row `csv.DictWriter.writerow` writes for a dictionary: the values
      in field-name order, "" for a missing one, and an error naming the keys
      that are not field names. */
  function WriterRow(fieldnames: seq<string>, d: map<string, string>): Result<seq<string>, WriteError> {
    var extra := d.Keys - set f | f in fieldnames;
    if extra != {} then Failure(ExtraFields(extra))
    else
      Success(seq(|fieldnames|, i requires 0 <= i < |fieldnames| =>
        if fieldnames[i] in d then d[fieldnames[i]] else ""))
  }

  /** Every record has exactly the five header keys, so `export_csv` writes
      it without error, its columns in header order. */
  lemma RecordMatchesHeader(r: Record)
    ensures AsDict(r).Keys == set h | h in Header
    ensures WriterRow(Header, AsDict(r)) == Success([r.title, r.start, r.end, r.finalStatus, r.organizer])
  {
    var d := AsDict(r);
    assert d.Keys == set h | h in Header;
    assert d.Keys - (set f | f in Header) == {};
    var row := seq(|Header|, i requires 0 <= i < |Header| => if Header[i] in d then d[Header[i]] else "");
    assert row[0] == r.title && row[1] == r.start && row[2] == r.end;
    assert row[3] == r.finalStatus && row[4] == r.organizer;
    assert row == [r.title, r.start, r.end, r.finalStatus, r.organizer];
    assert WriterRow(Header, d) == Success(row);
  }

  /** An organizer written as a mail link loses the link prefix; one
      without keeps its text; "mailto:" alone is kept whole. */
  lemma OrganizerExamples()
    ensures OrganizerValue("mailto:alice@example.org") == "alice@example.org"
    ensures OrganizerValue("alice@example.org") == "alice@example.org"
    ensures OrganizerValue("mailto:") == "mailto:"
    ensures OrganizerValue("mailto:mailto:x") == "mailto:x"
  {
    assert Strings.StartsWith("mailto:alice@example.org", Mailto);
    assert "alice@example.org"[..|Mailto|] != Mailto by {
      assert "alice@example.org"[0] != Mailto[0];
    }
    assert Strings.StartsWith("mailto:mailto:x", Mailto);
  }
}
