/**
 The backend bot's `rsvpReminderMessage`: the reminder posted for one event.
 It marks the earliest RSVP (the first person to answer), splits the RSVPs
 into mentors and others, and adds the event information and the row of
 RSVP buttons.
 */
module ReminderMessage {
  import opened Wrappers
  import opened Seqs
  import opened Domain
  import opened Decimal
  import opened Announcement

  /** An RSVP joined with its user's (optional) name and roles. */
  datatype ReminderRsvp = ReminderRsvp(rsvp: Rsvp, username: Option<string>, roles: seq<string>)

  /** The guild's role ids the reminder pings, one per kind of event. */
  datatype Roles = Roles(everyone: string, mentor: string, outreach: string, social: string)

  /**
   One roster line before rendering: the RSVP and whether it is the first
   answer. The text of a line is produced by `rsvpToDescription`, which is
   not part of this model.
   */
  datatype Entry = Entry(item: ReminderRsvp, isFirst: bool)

  datatype Group = Mentors | Others

  datatype ReminderEmbed =
    | Info(title: string, description: Option<string>, rolesField: string, typeField: string,
           allDayField: string, startDate: int, endDate: int, url: string)
    | Roster(group: Group, title: string, count: nat, entries: seq<Entry>)

  datatype Reminder = Reminder(embeds: seq<ReminderEmbed>, buttons: seq<Button>)

  // ---------------------------------------------------------------------------
  // the first answer: a stable sort, newest first, and its last element

  function CreatedAt(r: ReminderRsvp): int {
    r.rsvp.createdAt
  }

  /** Newest first: creation times never increase along the sequence. */
  predicate SortedNewestFirst(s: seq<ReminderRsvp>) {
    forall i, j :: 0 <= i < j < |s| ==> CreatedAt(s[i]) >= CreatedAt(s[j])
  }

  /**
   Inserts `x` before the first element created no later than it, which is
   where a stable sort by `b.createdAt - a.createdAt` puts an element that
   precedes all of `t` in the input.
   */
  function Insert(x: ReminderRsvp, t: seq<ReminderRsvp>): (r: seq<ReminderRsvp>)
    ensures |r| == |t| + 1
    ensures multiset(r) == multiset(t) + multiset{x}
  {
    if |t| == 0 then [x]
    else if CreatedAt(t[0]) <= CreatedAt(x) then [x] + t
    else
      assert t == [t[0]] + t[1..];
      [t[0]] + Insert(x, t[1..])
  }

  lemma {:induction false} InsertSorted(x: ReminderRsvp, t: seq<ReminderRsvp>)
    requires SortedNewestFirst(t)
    ensures SortedNewestFirst(Insert(x, t))
    ensures |t| > 0 ==> Insert(x, t)[0] == (if CreatedAt(t[0]) <= CreatedAt(x) then x else t[0])
  {
    if |t| > 0 && CreatedAt(t[0]) > CreatedAt(x) {
      InsertSorted(x, t[1..]);
      var rest := Insert(x, t[1..]);
      assert Insert(x, t) == [t[0]] + rest;
      forall j | 0 <= j < |rest|
        ensures CreatedAt(t[0]) >= CreatedAt(rest[j])
      {
        assert rest[j] in multiset(t[1..]) + multiset{x};
        if rest[j] in multiset(t[1..]) {
          assert rest[j] in t[1..];
        }
      }
    }
  }

  /** `[...rsvp].sort((a, b) => b.createdAt - a.createdAt)`, a stable sort. */
  function SortNewestFirst(s: seq<ReminderRsvp>): (r: seq<ReminderRsvp>)
    ensures multiset(r) == multiset(s)
    ensures |r| == |s|
  {
    if |s| == 0 then []
    else
      assert s == [s[0]] + s[1..];
      Insert(s[0], SortNewestFirst(s[1..]))
  }

  lemma {:induction false} SortNewestFirstSorted(s: seq<ReminderRsvp>)
    ensures SortedNewestFirst(SortNewestFirst(s))
  {
    if |s| > 0 {
      SortNewestFirstSorted(s[1..]);
      InsertSorted(s[0], SortNewestFirst(s[1..]));
    }
  }

  /**
   The index of the earliest-created RSVP, the last one in input order when
   several share the earliest time: an independent characterisation of the
   sorted sequence's last element.
   */
  function LastEarliest(s: seq<ReminderRsvp>): (i: nat)
    requires |s| > 0
    ensures i < |s|
    ensures forall j :: 0 <= j < |s| ==> CreatedAt(s[i]) <= CreatedAt(s[j])
    ensures forall j :: i < j < |s| ==> CreatedAt(s[i]) < CreatedAt(s[j])
  {
    if |s| == 1 then 0
    else
      var k := 1 + LastEarliest(s[1..]);
      assert forall j :: 1 <= j < |s| ==> s[j] == s[1..][j - 1];
      if CreatedAt(s[0]) < CreatedAt(s[k]) then 0 else k
  }

  lemma {:induction false} InsertLast(x: ReminderRsvp, t: seq<ReminderRsvp>)
    requires |t| > 0 && SortedNewestFirst(t)
    ensures Insert(x, t)[|t|] == if CreatedAt(x) < CreatedAt(t[|t| - 1]) then x else t[|t| - 1]
  {
    if CreatedAt(t[0]) > CreatedAt(x) && |t| > 1 {
      InsertLast(x, t[1..]);
    }
  }

  /** The sort's last element is the last of the earliest-created RSVPs. */
  lemma {:induction false} SortLastIsLastEarliest(s: seq<ReminderRsvp>)
    requires |s| > 0
    ensures SortNewestFirst(s)[|s| - 1] == s[LastEarliest(s)]
  {
    if |s| > 1 {
      var t := SortNewestFirst(s[1..]);
      SortLastIsLastEarliest(s[1..]);
      SortNewestFirstSorted(s[1..]);
      InsertLast(s[0], t);
      assert s[1 + LastEarliest(s[1..])] == s[1..][LastEarliest(s[1..])];
    }
  }

  /** `sortedByCreated.at(-1)?.id`: the id of the first answer, if any. */
  function FirstId(s: seq<ReminderRsvp>): Option<string> {
    var sorted := SortNewestFirst(s);
    if |sorted| == 0 then None else Some(sorted[|sorted| - 1].rsvp.id)
  }

  /**
   The first answer is the earliest RSVP, and of several answered at the same
   earliest time the one listed last.
   */
  lemma FirstIdIsEarliest(s: seq<ReminderRsvp>)
    ensures FirstId(s).None? <==> |s| == 0
    ensures |s| > 0 ==> FirstId(s) == Some(s[LastEarliest(s)].rsvp.id)
  {
    if |s| > 0 {
      SortLastIsLastEarliest(s);
    }
  }

  /** With distinct RSVP ids, exactly one RSVP is flagged as the first answer. */
  lemma ExactlyOneFirstFlag(s: seq<ReminderRsvp>)
    requires |s| > 0
    requires forall i, j :: 0 <= i < j < |s| ==> s[i].rsvp.id != s[j].rsvp.id
    ensures exists i :: 0 <= i < |s| && Some(s[i].rsvp.id) == FirstId(s)
    ensures forall i, j :: 0 <= i < |s| && 0 <= j < |s| && Some(s[i].rsvp.id) == FirstId(s) && Some(s[j].rsvp.id) == FirstId(s) ==> i == j
  {
    FirstIdIsEarliest(s);
    var k := LastEarliest(s);
    assert Some(s[k].rsvp.id) == FirstId(s);
  }

  // ---------------------------------------------------------------------------
  // the rosters and their counts

  predicate IsMentor(r: ReminderRsvp, roles: Roles) {
    roles.mentor in r.roles
  }

  function MentorTest(roles: Roles): ReminderRsvp -> bool {
    (r: ReminderRsvp) => IsMentor(r, roles)
  }

  function OtherTest(roles: Roles): ReminderRsvp -> bool {
    (r: ReminderRsvp) => !IsMentor(r, roles)
  }

  function StatusOf(r: ReminderRsvp): Status {
    r.rsvp.status
  }

  /** Every RSVP lands in exactly one of the two rosters, in input order. */
  lemma RostersPartition(s: seq<ReminderRsvp>, roles: Roles)
    ensures multiset(Filter(MentorTest(roles), s)) + multiset(Filter(OtherTest(roles), s)) == multiset(s)
    ensures IsSubsequence(Filter(MentorTest(roles), s), s) && IsSubsequence(Filter(OtherTest(roles), s), s)
  {
    FilterPartition(MentorTest(roles), OtherTest(roles), s);
    FilterIsSubsequence(MentorTest(roles), s);
    FilterIsSubsequence(OtherTest(roles), s);
  }

  /** JavaScript truthiness of a string. */
  predicate TruthyString(s: string) {
    |s| > 0
  }

  /**
   The student filter as written: `status === 'YES' || 'LATE'` parses as
   `(status === 'YES') || 'LATE'`, and the non-empty string is truthy.
   */
  function StudentTestAsWritten(): ReminderRsvp -> bool {
    (r: ReminderRsvp) => r.rsvp.status == YES || TruthyString("LATE")
  }

  /** The "Others" count as the code computes it. */
  function OthersCountAsWritten(others: seq<ReminderRsvp>): nat {
    |Filter(StudentTestAsWritten(), others)|
  }

  /** The as-written count is the number of others, whatever they answered. */
  lemma OthersCountAsWrittenIsLength(others: seq<ReminderRsvp>)
    ensures OthersCountAsWritten(others) == |others|
  {
    FilterLengthExtremes(StudentTestAsWritten(), others);
  }

  /** One person who answered NO is counted as coming by the as-written filter. */
  lemma OthersCountCounterexample(r: ReminderRsvp)
    requires r.rsvp.status == NO
    ensures OthersCountAsWritten([r]) == 1
    ensures ComingCount([r], StatusOf) == 0
  {
    OthersCountAsWrittenIsLength([r]);
  }

  /** The two corrected counts add up to everybody coming. */
  lemma ComingCountsAddUp(s: seq<ReminderRsvp>, roles: Roles)
    ensures ComingCount(Filter(MentorTest(roles), s), StatusOf) + ComingCount(Filter(OtherTest(roles), s), StatusOf) == ComingCount(s, StatusOf)
  {
    ComingCountSplits(s, StatusOf, MentorTest(roles), OtherTest(roles));
  }

  /** Whether an RSVP is the one `firstId` names. */
  function FirstTest(firstId: Option<string>): ReminderRsvp -> bool {
    (r: ReminderRsvp) => firstId == Some(r.rsvp.id)
  }

  /**
   With distinct RSVP ids and at least one RSVP, the two rosters together
   flag exactly one line as the first answer.
   */
  lemma OneFirstAcrossRosters(s: seq<ReminderRsvp>, roles: Roles, firstId: Option<string>)
    requires |s| > 0 && firstId == FirstId(s)
    requires forall i, j :: 0 <= i < j < |s| ==> s[i].rsvp.id != s[j].rsvp.id
    ensures |Filter(FirstTest(firstId), Filter(MentorTest(roles), s))|
      + |Filter(FirstTest(firstId), Filter(OtherTest(roles), s))| == 1
  {
    FilterCountSplit(FirstTest(firstId), MentorTest(roles), OtherTest(roles), s);
    FirstIdIsEarliest(s);
    var k := LastEarliest(s);
    assert forall i :: 0 <= i < |s| && i != k ==> !FirstTest(firstId)(s[i]);
    FilterSingle(FirstTest(firstId), s, k);
  }

  // ---------------------------------------------------------------------------
  // the message

  /** The role pinged for each kind of event; a Regular event pings everyone. */
  function RoleFor(t: EventType, roles: Roles): string {
    match t
    case Outreach => roles.outreach
    case Mentor => roles.mentor
    case Social => roles.social
    case Regular => roles.everyone
  }

  function EventTypeName(t: EventType): string {
    match t
    case Regular => "Regular"
    case Outreach => "Outreach"
    case Mentor => "Mentor"
    case Social => "Social"
  }

  function Entries(group: seq<ReminderRsvp>, firstId: Option<string>): (es: seq<Entry>)
    ensures |es| == |group|
    ensures forall i :: 0 <= i < |group| ==> es[i].item == group[i] && (es[i].isFirst <==> firstId == Some(group[i].rsvp.id))
  {
    seq(|group|, i requires 0 <= i < |group| => Entry(group[i], firstId == Some(group[i].rsvp.id)))
  }

  /** The roster embeds: mentors then others, each only when it has people. */
  function RosterEmbeds(mentors: seq<ReminderRsvp>, others: seq<ReminderRsvp>, firstId: Option<string>): (es: seq<ReminderEmbed>)
    ensures |es| == (if |mentors| > 0 then 1 else 0) + (if |others| > 0 then 1 else 0)
    ensures |mentors| > 0 ==> es[0] == Roster(Mentors, "Mentors (" + IntToString(ComingCount(mentors, StatusOf)) + ")", ComingCount(mentors, StatusOf), Entries(mentors, firstId))
    ensures |others| > 0 ==> es[|es| - 1] == Roster(Others, "Others (" + IntToString(|others|) + ")", |others|, Entries(others, firstId))
  {
    OthersCountAsWrittenIsLength(others);
    var c := OthersCountAsWritten(others);
    (if |mentors| > 0 then [Roster(Mentors, "Mentors (" + IntToString(ComingCount(mentors, StatusOf)) + ")", ComingCount(mentors, StatusOf), Entries(mentors, firstId))] else [])
      + (if |others| > 0 then [Roster(Others, "Others (" + IntToString(c) + ")", c, Entries(others, firstId))] else [])
  }

  /**
   `rsvpReminderMessage`: the info embed, then the mentor roster when there
   are mentors, then the others roster when there are others (whose title
   counts every other RSVP, as written), and the five RSVP buttons.
   */
  function ReminderFor(event: Event, rsvps: seq<ReminderRsvp>, roles: Roles, frontendUrl: string): (m: Reminder)
    ensures |m.embeds| >= 1 && m.embeds[0].Info?
    ensures m.embeds[0].title == event.title && m.embeds[0].typeField == EventTypeName(event.eventType)
    ensures m.embeds[0].startDate == event.startDate && m.embeds[0].endDate == event.endDate
    ensures m.embeds[0].rolesField == RoleMention(RoleFor(event.eventType, roles))
    ensures m.embeds[0].allDayField == (if event.allDay then "Yes" else "No")
    ensures m.embeds[0].description == (if |event.description| > 0 then Some(event.description) else None)
    ensures m.embeds[0].url == frontendUrl + "/events/" + event.id
    ensures m.embeds[1..] == RosterEmbeds(Filter(MentorTest(roles), rsvps), Filter(OtherTest(roles), rsvps), FirstId(rsvps))
    ensures m.buttons == RsvpButtons(event.id)
  {
    var firstId := FirstId(rsvps);
    var mentors := Filter(MentorTest(roles), rsvps);
    var others := Filter(OtherTest(roles), rsvps);
    var info := Info(
      event.title,
      if |event.description| > 0 then Some(event.description) else None,
      RoleMention(RoleFor(event.eventType, roles)),
      EventTypeName(event.eventType),
      if event.allDay then "Yes" else "No",
      event.startDate, event.endDate,
      frontendUrl + "/events/" + event.id);
    Reminder([info] + RosterEmbeds(mentors, others, firstId), RsvpButtons(event.id))
  }

  /** The corrected others roster: its title counts those coming, as the mentor roster does. */
  function CorrectedRosterEmbeds(mentors: seq<ReminderRsvp>, others: seq<ReminderRsvp>, firstId: Option<string>): (es: seq<ReminderEmbed>)
    ensures |es| == (if |mentors| > 0 then 1 else 0) + (if |others| > 0 then 1 else 0)
    ensures |mentors| > 0 ==> es[0].Roster? && es[0].group == Mentors && es[0].count == ComingCount(mentors, StatusOf)
    ensures |others| > 0 ==> es[|es| - 1].Roster? && es[|es| - 1].group == Others && es[|es| - 1].count == ComingCount(others, StatusOf)
    ensures |mentors| > 0 ==> es[0] == Roster(Mentors, "Mentors (" + IntToString(ComingCount(mentors, StatusOf)) + ")", ComingCount(mentors, StatusOf), Entries(mentors, firstId))
    ensures |others| > 0 ==> es[|es| - 1] == Roster(Others, "Others (" + IntToString(ComingCount(others, StatusOf)) + ")", ComingCount(others, StatusOf), Entries(others, firstId))
  {
    (if |mentors| > 0 then [Roster(Mentors, "Mentors (" + IntToString(ComingCount(mentors, StatusOf)) + ")", ComingCount(mentors, StatusOf), Entries(mentors, firstId))] else [])
      + (if |others| > 0 then [Roster(Others, "Others (" + IntToString(ComingCount(others, StatusOf)) + ")", ComingCount(others, StatusOf), Entries(others, firstId))] else [])
  }

  /**
   The corrected rosters differ from the rosters as written exactly when
   some other RSVP is not coming: only the others title and count change,
   and they change exactly when the always-true filter counted too many.
   */
  lemma CorrectedDiffersExactlyWhenSomeOtherNotComing(mentors: seq<ReminderRsvp>, others: seq<ReminderRsvp>, firstId: Option<string>)
    ensures CorrectedRosterEmbeds(mentors, others, firstId) == RosterEmbeds(mentors, others, firstId)
      <==> forall i :: 0 <= i < |others| ==> IsComing(StatusOf(others[i]))
  {
    var fixed := CorrectedRosterEmbeds(mentors, others, firstId);
    var asWritten := RosterEmbeds(mentors, others, firstId);
    if |others| > 0 && fixed == asWritten {
      assert fixed[|fixed| - 1].count == asWritten[|asWritten| - 1].count;
    }
  }

  /**
   In the corrected reminder the two titles together count exactly the
   people coming in the two rosters; with `ComingCountsAddUp`, that is
   everybody coming.
   */
  lemma CorrectedCountsAreComing(mentors: seq<ReminderRsvp>, others: seq<ReminderRsvp>, firstId: Option<string>)
    ensures var es := CorrectedRosterEmbeds(mentors, others, firstId);
      (if |es| == 0 then 0 else es[0].count + (if |es| == 2 then es[1].count else 0)) == ComingCount(mentors, StatusOf) + ComingCount(others, StatusOf)
    ensures var es := CorrectedRosterEmbeds(mentors, others, firstId);
      forall i :: 0 <= i < |es| ==> es[i].Roster? && es[i].title == (if es[i].group == Mentors then "Mentors (" else "Others (") + IntToString(es[i].count) + ")"
  {
    if |mentors| == 0 {
      assert ComingCount(mentors, StatusOf) == 0;
    }
    if |others| == 0 {
      assert ComingCount(others, StatusOf) == 0;
    }
  }
}
