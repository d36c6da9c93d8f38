/**
 What the two RSVP announcement builders (the web server's `generateMessage`
 and the bot's reminder message) share: Discord role mentions and the row of
 RSVP buttons, whose custom ids encode the event and the action.
 */
module Announcement {
  import opened Wrappers
  import opened Seqs
  import opened Domain

  /** `roleMention(id)`: Discord's `<@&id>` markup. */
  function RoleMention(roleId: string): (m: string)
    ensures |m| == |roleId| + 4 && m[..3] == "<@&" && m[|m| - 1] == '>'
  {
    "<@&" + roleId + ">"
  }

  /** The wire name of a status, as used in the custom ids. */
  function StatusName(s: Status): string {
    match s
    case YES => "YES"
    case NO => "NO"
    case MAYBE => "MAYBE"
    case LATE => "LATE"
    case ATTENDED => "ATTENDED"
  }

  function ParseStatus(name: string): (r: Option<Status>)
    ensures r.Some? ==> StatusName(r.value) == name
  {
    if name == "YES" then Some(YES)
    else if name == "NO" then Some(NO)
    else if name == "MAYBE" then Some(MAYBE)
    else if name == "LATE" then Some(LATE)
    else if name == "ATTENDED" then Some(ATTENDED)
    else None
  }

  lemma ParseStatusName(s: Status)
    ensures ParseStatus(StatusName(s)) == Some(s)
  {
  }

  /** What pressing an announcement button asks for. */
  datatype ButtonAction = RsvpAs(status: Status) | CheckIn

  datatype ButtonStyle = Success | Secondary | Danger | Primary

  datatype Button = Button(customId: string, text: string, style: ButtonStyle)

  /** The part of a custom id after the event id: `rsvp/{STATUS}` or `checkin`. */
  function ActionPath(action: ButtonAction): string {
    match action
    case RsvpAs(s) => "rsvp/" + StatusName(s)
    case CheckIn => "checkin"
  }

  /** `event/{id}/rsvp/{STATUS}` or `event/{id}/checkin`. */
  function ButtonCustomId(eventId: string, action: ButtonAction): string {
    "event/" + eventId + "/" + ActionPath(action)
  }

  function ParseActionPath(path: string): Option<ButtonAction> {
    if path == "checkin" then Some(CheckIn)
    else if |path| >= 5 && path[..5] == "rsvp/" then
      match ParseStatus(path[5..])
      case Some(s) => Some(RsvpAs(s))
      case None => None
    else None
  }

  lemma ParseActionPathRoundTrip(action: ButtonAction)
    ensures ParseActionPath(ActionPath(action)) == Some(action)
  {
    if action.RsvpAs? {
      var path := ActionPath(action);
      assert path[..5] == "rsvp/";
      assert path[5..] == StatusName(action.status);
      ParseStatusName(action.status);
    }
  }

  /** Reads an event id and an action back out of a button's custom id. */
  function ParseButtonId(customId: string): Option<(string, ButtonAction)>
  {
    var prefix := "event/";
    if |customId| < |prefix| || customId[..|prefix|] != prefix then None
    else
      var rest := customId[|prefix|..];
      var i := IndexOf(rest, '/');
      if i == 0 || i == |rest| then None
      else
        match ParseActionPath(rest[i + 1..])
        case Some(action) => Some((rest[..i], action))
        case None => None
  }

  /** Every custom id names its event and action unambiguously. */
  lemma ButtonCustomIdRoundTrip(eventId: string, action: ButtonAction)
    requires |eventId| > 0 && '/' !in eventId
    ensures ParseButtonId(ButtonCustomId(eventId, action)) == Some((eventId, action))
  {
    var id := ButtonCustomId(eventId, action);
    var tail := ActionPath(action);
    var rest := id[|"event/"|..];
    assert id[..|"event/"|] == "event/";
    assert rest == eventId + "/" + tail;
    IndexOfAfter(eventId, '/', tail);
    assert rest[..IndexOf(rest, '/')] == eventId;
    assert rest[IndexOf(rest, '/') + 1..] == tail;
    ParseActionPathRoundTrip(action);
  }

  /** The button row: Coming, Maybe, Not Coming, Late, Check In. */
  function RsvpButtons(eventId: string): (bs: seq<Button>)
    ensures |bs| == 5
    ensures bs[0].customId == ButtonCustomId(eventId, RsvpAs(YES))
    ensures bs[1].customId == ButtonCustomId(eventId, RsvpAs(MAYBE))
    ensures bs[2].customId == ButtonCustomId(eventId, RsvpAs(NO))
    ensures bs[3].customId == ButtonCustomId(eventId, RsvpAs(LATE))
    ensures bs[4].customId == ButtonCustomId(eventId, CheckIn)
  {
    [
      Button(ButtonCustomId(eventId, RsvpAs(YES)), "Coming", Success),
      Button(ButtonCustomId(eventId, RsvpAs(MAYBE)), "Maybe", Secondary),
      Button(ButtonCustomId(eventId, RsvpAs(NO)), "Not Coming", Danger),
      Button(ButtonCustomId(eventId, RsvpAs(LATE)), "Late", Primary),
      Button(ButtonCustomId(eventId, CheckIn), "Check In", Primary)
    ]
  }

  /** Different actions on the same event never share a custom id. */
  lemma ButtonCustomIdInjective(eventId: string, a1: ButtonAction, a2: ButtonAction)
    requires |eventId| > 0 && '/' !in eventId
    requires ButtonCustomId(eventId, a1) == ButtonCustomId(eventId, a2)
    ensures a1 == a2
  {
    ButtonCustomIdRoundTrip(eventId, a1);
    ButtonCustomIdRoundTrip(eventId, a2);
  }

  /** The five buttons of one message carry five distinct custom ids. */
  lemma RsvpButtonsDistinct(eventId: string)
    requires |eventId| > 0 && '/' !in eventId
    ensures forall i, j :: 0 <= i < j < 5 ==> RsvpButtons(eventId)[i].customId != RsvpButtons(eventId)[j].customId
  {
    var bs := RsvpButtons(eventId);
    var actions := [RsvpAs(YES), RsvpAs(MAYBE), RsvpAs(NO), RsvpAs(LATE), CheckIn];
    assert forall i :: 0 <= i < 5 ==> bs[i].customId == ButtonCustomId(eventId, actions[i]);
    forall i, j | 0 <= i < j < 5
      ensures bs[i].customId != bs[j].customId
    {
      if bs[i].customId == bs[j].customId {
        ButtonCustomIdInjective(eventId, actions[i], actions[j]);
      }
    }
  }

  // ---------------------------------------------------------------------------
  // the "coming" count of a roster

  /** Whether a roster entry counts as coming, given how to read its status. */
  function ComingTest<T>(statusOf: T -> Status): T -> bool {
    (r: T) => IsComing(statusOf(r))
  }

  /** The number in a roster's title: how many entries answered YES or LATE. */
  function ComingCount<T>(group: seq<T>, statusOf: T -> Status): (n: nat)
    ensures n <= |group|
    ensures n == |group| <==> forall i :: 0 <= i < |group| ==> IsComing(statusOf(group[i]))
    ensures n == 0 <==> forall i :: 0 <= i < |group| ==> !IsComing(statusOf(group[i]))
  {
    FilterLengthExtremes(ComingTest(statusOf), group);
    |Filter(ComingTest(statusOf), group)|
  }

  /** Splitting a roster in two splits its coming count: each answer is counted once. */
  lemma ComingCountSplits<T>(group: seq<T>, statusOf: T -> Status, p: T -> bool, q: T -> bool)
    requires forall x :: q(x) == !p(x)
    ensures ComingCount(Filter(p, group), statusOf) + ComingCount(Filter(q, group), statusOf) == ComingCount(group, statusOf)
  {
    FilterCountSplit(ComingTest(statusOf), p, q, group);
  }
}
