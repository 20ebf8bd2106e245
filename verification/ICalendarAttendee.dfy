/** The lines of organizers and attendees, whose names are quoted parameters. */
module ICalendarAttendee {
  import opened Basics
  import opened ICalendarLines
  import opened ICalendarProperty

  datatype Role = Required | Optional | Chair | NonParticipant

  datatype Attendee = Attendee(name: string, email: string, role: Role, status: string, rsvp: bool)

  function RoleText(role: Role): string {
    match role
    case Required => "REQ-PARTICIPANT"
    case Optional => "OPT-PARTICIPANT"
    case Chair => "CHAIR"
    case NonParticipant => "NON-PARTICIPANT"
  }

  /** Double quotes and line breaks of a name are printed as single quotes. */
  function Masked(name: string): (r: string)
    ensures |r| == |name|
    ensures forall k :: 0 <= k < |r| ==> r[k] == if name[k] in "\"\r\n" then '\'' else name[k]
  {
    if name == "" then "" else [if name[0] in "\"\r\n" then '\'' else name[0]] + Masked(name[1..])
  }

  function NameParameters(a: Attendee): seq<Parameter> {
    if a.name == "" then [] else [Parameter("CN", [Value(Masked(a.name), true)])]
  }

  function AttendeeParameters(a: Attendee): seq<Parameter> {
    [ Parameter("ROLE", [Value(RoleText(a.role), false)]),
      Parameter("PARTSTAT", [Value(a.status, false)]),
      Parameter("RSVP", [Value(if a.rsvp then "TRUE" else "FALSE", false)]) ]
  }

  function AttendeeEntry(organizer: bool, a: Attendee): Entry {
    Entry(if organizer then "ORGANIZER" else "ATTENDEE",
          NameParameters(a) + if organizer then [] else AttendeeParameters(a),
          "mailto:" + a.email)
  }

  lemma {:induction false} MaskingKeepsBackslashes(name: string)
    ensures FinalBackslashes(Masked(name)) == FinalBackslashes(name)
  {
    if name != "" {
      MaskingKeepsBackslashes(name[..|name| - 1]);
      assert Masked(name)[..|name| - 1] == Masked(name[..|name| - 1]);
    }
  }

  ghost predicate Plain(s: string) {
    s != "" && forall k :: 0 <= k < |s| ==> Letter(s[k]) || s[k] == '-'
  }

  lemma PlainParameterIsSafe(key: string, text: string)
    requires Plain(key) && Letter(key[0]) && Plain(text)
    ensures SafeParameter(Parameter(key, [Value(text, false)]))
  {
  }

  lemma PlainTexts(role: Role)
    ensures Plain(RoleText(role)) && Plain("TRUE") && Plain("FALSE")
    ensures Plain("ROLE") && Plain("PARTSTAT") && Plain("RSVP") && Plain("CN")
  {
    match role
    case Required => assert Plain("REQ-PARTICIPANT");
    case Optional => assert Plain("OPT-PARTICIPANT");
    case Chair => assert Plain("CHAIR");
    case NonParticipant => assert Plain("NON-PARTICIPANT");
  }

  lemma SingleValueIsSettledIff(v: Value, last: bool)
    ensures SettledValues([v], last) <==> last || !Dangles(v)
  {
    assert [v][1..] == [];
  }

  lemma {:induction false} UnquotedIsSettled(ps: seq<Parameter>)
    requires forall k :: 0 <= k < |ps| ==> |ps[k].values| == 1 && !ps[k].values[0].quoted
    ensures Settled(ps)
  {
    if ps != [] {
      assert ps[0].values == [ps[0].values[0]];
      SingleValueIsSettledIff(ps[0].values[0], |ps| == 1);
      UnquotedIsSettled(ps[1..]);
    }
  }

  lemma AttendeeParametersAreSafe(a: Attendee)
    requires Plain(a.status)
    ensures SafeParameters(AttendeeParameters(a)) && Settled(AttendeeParameters(a))
  {
    PlainTexts(a.role);
    PlainParameterIsSafe("ROLE", RoleText(a.role));
    PlainParameterIsSafe("PARTSTAT", a.status);
    PlainParameterIsSafe("RSVP", if a.rsvp then "TRUE" else "FALSE");
    UnquotedIsSettled(AttendeeParameters(a));
  }

  lemma NameParametersAreSafe(a: Attendee)
    ensures SafeParameters(NameParameters(a))
  {
    PlainTexts(Chair);
  }

  lemma AttendeeIsSafe(organizer: bool, a: Attendee)
    requires Plain(a.status) && NoBreak(a.email)
    ensures SafeEntry(AttendeeEntry(organizer, a))
  {
    AttendeeParametersAreSafe(a);
    NameParametersAreSafe(a);
    assert Plain("ORGANIZER") && Plain("ATTENDEE");
  }

  lemma AttendeeIsSettledIff(organizer: bool, a: Attendee)
    requires Plain(a.status)
    ensures Settled(AttendeeEntry(organizer, a).parameters) <==> organizer || FinalBackslashes(a.name) % 2 == 0
  {
    var ps, more := AttendeeEntry(organizer, a).parameters, if organizer then [] else AttendeeParameters(a);
    AttendeeParametersAreSafe(a);
    MaskingKeepsBackslashes(a.name);
    if a.name == "" {
      assert ps == more;
    } else {
      assert ps[0].values == [Value(Masked(a.name), true)] && ps[1..] == more;
      SingleValueIsSettledIff(ps[0].values[0], |ps| == 1);
    }
  }

  /** An attendee's line is read back as printed exactly when the name does not end in an odd number of
      backslashes; an organizer's line, where nothing follows the name, always is. */
  lemma AttendeeReadsBackIff(organizer: bool, a: Attendee)
    requires Plain(a.status) && NoBreak(a.email)
    ensures var e := AttendeeEntry(organizer, a);
            ParseLine(PrintEntry(e)) == Ok(PropertyOf(e)) <==> organizer || FinalBackslashes(a.name) % 2 == 0
  {
    AttendeeIsSafe(organizer, a);
    AttendeeIsSettledIff(organizer, a);
    PrintedEntryReadsBackIff(AttendeeEntry(organizer, a));
  }
}
