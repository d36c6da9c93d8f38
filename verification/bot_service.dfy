/**
 The web server's `generateMessage`: the RSVP announcement for one event,
 with the roles it pings, the event information, a roster for mentors and
 one for everybody else, and the row of RSVP buttons.
 */
module BotService {
  import opened Wrappers
  import opened Seqs
  import opened Domain
  import opened Decimal
  import opened Announcement

  /** An RSVP joined with its user's name and (possibly missing) roles. */
  datatype RsvpUser = RsvpUser(rsvp: Rsvp, username: string, roles: Option<seq<string>>)

  /** An event-parsing rule: the roles to ping for the events it created. */
  datatype EventRule = EventRule(id: string, roleIds: seq<string>)

  /** The server's configuration: guild id, mentor role id, front-end URL. */
  datatype Env = Env(guildId: string, mentorRoleId: string, frontendUrl: string)

  datatype Group = Mentors | Others

  datatype Embed =
    | InfoEmbed(title: string, description: Option<string>, rolesField: string, startDate: int, endDate: int, url: string)
    | GroupEmbed(group: Group, title: string, count: nat, lines: seq<string>)

  datatype Message = Message(content: string, embeds: seq<Embed>, buttons: seq<Button>)

  // ---------------------------------------------------------------------------
  // statusToEmoji

  /** `statusToEmoji`: a LATE answer shows its delay when the delay is non-zero. */
  function StatusToEmoji(status: Status, delay: Option<int>): (e: string)
    ensures status == YES ==> e == ":white_check_mark:"
    ensures status == NO ==> e == ":x:"
    ensures status == MAYBE ==> e == ":grey_question:"
    ensures status == ATTENDED ==> e == ":ok:"
    ensures status == LATE && delay.Some? && delay.value != 0 ==> e == ":clock3: - " + IntToString(delay.value) + "m late"
    ensures status == LATE && (delay.None? || delay.value == 0) ==> e == ":clock3:"
  {
    match status
    case YES => ":white_check_mark:"
    case NO => ":x:"
    case MAYBE => ":grey_question:"
    case LATE => if delay.Some? && delay.value != 0 then ":clock3: - " + IntToString(delay.value) + "m late" else ":clock3:"
    case ATTENDED => ":ok:"
  }

  /** The emoji alone tells the status apart, whatever the delay. */
  lemma EmojiDeterminesStatus(s1: Status, d1: Option<int>, s2: Status, d2: Option<int>)
    requires StatusToEmoji(s1, d1) == StatusToEmoji(s2, d2)
    ensures s1 == s2
  {
    assert StatusToEmoji(s1, d1)[1] == EmojiKey(s1);
    assert StatusToEmoji(s2, d2)[1] == EmojiKey(s2);
  }

  /** The second character of each status's emoji. */
  function EmojiKey(s: Status): char {
    match s
    case YES => 'w'
    case NO => 'x'
    case MAYBE => 'g'
    case LATE => 'c'
    case ATTENDED => 'o'
  }

  // ---------------------------------------------------------------------------
  // role ids and the role mention list

  /**
   The roles to ping: without a rule, the whole guild and, for a Mentor
   event, the mentor role; with a rule, the rule's roles; a rule that is not
   in the table raises "Event Rule not found".
   */
  function RoleIds(event: Event, rules: map<string, EventRule>, env: Env): (r: Result<seq<string>, string>)
    ensures event.ruleId.None? ==> (
      && r.Ok? && 1 <= |r.value| <= 2 && r.value[0] == env.guildId
      && (|r.value| == 2 <==> event.eventType == Mentor)
      && (|r.value| == 2 ==> r.value[1] == env.mentorRoleId))
    ensures event.ruleId.Some? && event.ruleId.value !in rules ==> r == Err("Event Rule not found")
    ensures event.ruleId.Some? && event.ruleId.value in rules ==> r == Ok(rules[event.ruleId.value].roleIds)
  {
    match event.ruleId
    case None => Ok([env.guildId] + (if event.eventType == Mentor then [env.mentorRoleId] else []))
    case Some(ruleId) =>
      if ruleId !in rules then Err("Event Rule not found") else Ok(rules[ruleId].roleIds)
  }

  function Mentions(ids: seq<string>): (ms: seq<string>)
    ensures |ms| == |ids| && forall i :: 0 <= i < |ids| ==> ms[i] == RoleMention(ids[i])
  {
    seq(|ids|, i requires 0 <= i < |ids| => RoleMention(ids[i]))
  }

  /**
   `roleMentionList`: for several ids, all but the last joined by ", ", then
   " and " and the last; for one id, its mention. An empty list reads
   `roleIds[0]`, which is `undefined` in JavaScript.
   */
  function RoleMentionList(ids: seq<string>): string
  {
    if |ids| > 1 then
      Join(Mentions(ids[..|ids| - 1]), ", ") + " and " + RoleMention(ids[|ids| - 1])
    else RoleMention(if |ids| == 1 then ids[0] else "undefined")
  }

  /** English enumeration: "a", "a and b", "a, b and c", ... */
  function EnglishList(items: seq<string>): string
    requires |items| >= 1
  {
    if |items| == 1 then items[0]
    else if |items| == 2 then items[0] + " and " + items[1]
    else items[0] + ", " + EnglishList(items[1..])
  }

  /** The mention list is the English enumeration of the mentions, for any non-empty list. */
  lemma RoleMentionListIsEnglishList(ids: seq<string>)
    requires |ids| >= 1
    ensures RoleMentionList(ids) == EnglishList(Mentions(ids))
  {
    if |ids| > 1 {
      var ms := Mentions(ids);
      assert Mentions(ids[..|ids| - 1]) == ms[..|ms| - 1];
      JoinThenAnd(ms);
    }
  }

  lemma {:induction false} JoinThenAnd(ms: seq<string>)
    requires |ms| >= 2
    ensures Join(ms[..|ms| - 1], ", ") + " and " + ms[|ms| - 1] == EnglishList(ms)
  {
    var n := |ms|;
    if n > 2 {
      JoinThenAnd(ms[1..]);
      assert ms[1..][..n - 2] == ms[..n - 1][1..];
      assert Join(ms[..n - 1], ", ") == ms[0] + ", " + Join(ms[1..][..n - 2], ", ");
    }
  }

  // ---------------------------------------------------------------------------
  // rosters

  /** `roles?.includes(mentorRoleId)`: a user without roles is not a mentor. */
  predicate IsMentor(r: RsvpUser, mentorRoleId: string) {
    r.roles.Some? && mentorRoleId in r.roles.value
  }

  /** The mentor test as a predicate value, and its complement. */
  function MentorTest(mentorRoleId: string): RsvpUser -> bool {
    (r: RsvpUser) => IsMentor(r, mentorRoleId)
  }

  function OtherTest(mentorRoleId: string): RsvpUser -> bool {
    (r: RsvpUser) => !IsMentor(r, mentorRoleId)
  }

  function MentorRsvps(rsvps: seq<RsvpUser>, mentorRoleId: string): (ms: seq<RsvpUser>)
    ensures forall i :: 0 <= i < |ms| ==> IsMentor(ms[i], mentorRoleId) && ms[i] in rsvps
    ensures forall i :: 0 <= i < |rsvps| && IsMentor(rsvps[i], mentorRoleId) ==> rsvps[i] in ms
  {
    Filter(MentorTest(mentorRoleId), rsvps)
  }

  function OtherRsvps(rsvps: seq<RsvpUser>, mentorRoleId: string): (os: seq<RsvpUser>)
    ensures forall i :: 0 <= i < |os| ==> !IsMentor(os[i], mentorRoleId) && os[i] in rsvps
    ensures forall i :: 0 <= i < |rsvps| && !IsMentor(rsvps[i], mentorRoleId) ==> rsvps[i] in os
  {
    Filter(OtherTest(mentorRoleId), rsvps)
  }

  /**
   Mentors and others split the RSVPs: together they hold every RSVP, as
   many times as it occurs, and each list keeps the original order.
   */
  lemma RostersPartition(rsvps: seq<RsvpUser>, mentorRoleId: string)
    ensures multiset(MentorRsvps(rsvps, mentorRoleId)) + multiset(OtherRsvps(rsvps, mentorRoleId)) == multiset(rsvps)
    ensures |MentorRsvps(rsvps, mentorRoleId)| + |OtherRsvps(rsvps, mentorRoleId)| == |rsvps|
    ensures IsSubsequence(MentorRsvps(rsvps, mentorRoleId), rsvps)
    ensures IsSubsequence(OtherRsvps(rsvps, mentorRoleId), rsvps)
  {
    FilterPartition(MentorTest(mentorRoleId), OtherTest(mentorRoleId), rsvps);
    FilterIsSubsequence(MentorTest(mentorRoleId), rsvps);
    FilterIsSubsequence(OtherTest(mentorRoleId), rsvps);
  }

  /** The number in a roster's title: how many of its RSVPs are YES or LATE. */
  function StatusOf(r: RsvpUser): Status {
    r.rsvp.status
  }

  /** A mentor's line shows the announced delay. */
  function MentorLine(r: RsvpUser): string {
    r.username + " - " + StatusToEmoji(r.rsvp.status, r.rsvp.delay)
  }

  /** Everybody else's line never shows a delay. */
  function OtherLine(r: RsvpUser): (line: string)
    ensures r.rsvp.status == LATE ==> line == r.username + " - :clock3:"
  {
    r.username + " - " + StatusToEmoji(r.rsvp.status, None)
  }

  function GroupTitle(name: string, count: nat): string {
    name + " (" + IntToString(count) + ")"
  }

  function MentorEmbed(mentors: seq<RsvpUser>): (e: Embed)
    ensures e.GroupEmbed? && e.count <= |e.lines| == |mentors|
    ensures e.count == ComingCount(mentors, StatusOf) && e.title == GroupTitle("Mentors", e.count)
    ensures forall i :: 0 <= i < |mentors| ==> e.lines[i] == MentorLine(mentors[i])
  {
    GroupEmbed(Mentors, GroupTitle("Mentors", ComingCount(mentors, StatusOf)), ComingCount(mentors, StatusOf),
      seq(|mentors|, i requires 0 <= i < |mentors| => MentorLine(mentors[i])))
  }

  function OtherEmbed(others: seq<RsvpUser>): (e: Embed)
    ensures e.GroupEmbed? && e.count <= |e.lines| == |others|
    ensures e.count == ComingCount(others, StatusOf) && e.title == GroupTitle("Others", e.count)
    ensures forall i :: 0 <= i < |others| ==> e.lines[i] == OtherLine(others[i])
  {
    GroupEmbed(Others, GroupTitle("Others", ComingCount(others, StatusOf)), ComingCount(others, StatusOf),
      seq(|others|, i requires 0 <= i < |others| => OtherLine(others[i])))
  }

  /** The roster embeds: mentors first, each only when it has people. */
  function Rosters(mentors: seq<RsvpUser>, others: seq<RsvpUser>): (es: seq<Embed>)
    ensures |es| == (if |mentors| > 0 then 1 else 0) + (if |others| > 0 then 1 else 0)
    ensures |mentors| > 0 ==> es[0] == MentorEmbed(mentors)
    ensures |others| > 0 ==> es[|es| - 1] == OtherEmbed(others)
  {
    (if |mentors| > 0 then [MentorEmbed(mentors)] else [])
      + (if |others| > 0 then [OtherEmbed(others)] else [])
  }

  // ---------------------------------------------------------------------------
  // generateMessage

  /**
   `generateMessage` for the RSVPs of `eventId`: fails with "Event not found"
   or "Event Rule not found"; otherwise the info embed comes first, then a
   mentor roster if there are mentors, then an others roster if there are
   others, and the five RSVP buttons.
   */
  function GenerateMessage(eventId: string, rsvps: seq<RsvpUser>, events: map<string, Event>, rules: map<string, EventRule>, env: Env): (r: Result<Message, string>)
    ensures eventId !in events ==> r == Err("Event not found")
    ensures r.Ok? <==> eventId in events && RoleIds(events[eventId], rules, env).Ok?
    ensures r.Ok? ==>
      var m := r.value;
      var mentors := MentorRsvps(rsvps, env.mentorRoleId);
      var others := OtherRsvps(rsvps, env.mentorRoleId);
      var roles := RoleMentionList(RoleIds(events[eventId], rules, env).value);
      && m.content == "Please RSVP (" + roles + ")"
      && |m.embeds| >= 1
      && m.embeds[1..] == Rosters(mentors, others)
      && m.embeds[0].InfoEmbed?
      && m.embeds[0].title == events[eventId].title
      && m.embeds[0].rolesField == roles
      && m.embeds[0].description == (if |events[eventId].description| > 0 then Some(events[eventId].description) else None)
      && m.embeds[0].startDate == events[eventId].startDate
      && m.embeds[0].endDate == events[eventId].endDate
      && m.embeds[0].url == env.frontendUrl + "/events/" + events[eventId].id
      && m.buttons == RsvpButtons(events[eventId].id)
  {
    if eventId !in events then Err("Event not found")
    else
      var event := events[eventId];
      var roleIds :- RoleIds(event, rules, env);
      var mentors := MentorRsvps(rsvps, env.mentorRoleId);
      var others := OtherRsvps(rsvps, env.mentorRoleId);
      var roles := RoleMentionList(roleIds);
      var info := InfoEmbed(
        event.title,
        if |event.description| > 0 then Some(event.description) else None,
        roles, event.startDate, event.endDate,
        env.frontendUrl + "/events/" + event.id);
      Ok(Message("Please RSVP (" + roles + ")", [info] + Rosters(mentors, others), RsvpButtons(event.id)))
  }

  /**
   The two roster counts add up to the number of people coming: every YES or
   LATE answer is counted in exactly one of the two titles.
   */
  lemma RosterCountsAddUp(rsvps: seq<RsvpUser>, mentorRoleId: string)
    ensures ComingCount(MentorRsvps(rsvps, mentorRoleId), StatusOf) + ComingCount(OtherRsvps(rsvps, mentorRoleId), StatusOf) == ComingCount(rsvps, StatusOf)
    ensures MentorEmbed(MentorRsvps(rsvps, mentorRoleId)).count + OtherEmbed(OtherRsvps(rsvps, mentorRoleId)).count == ComingCount(rsvps, StatusOf)
  {
    ComingCountSplits(rsvps, StatusOf, MentorTest(mentorRoleId), OtherTest(mentorRoleId));
  }

  /** A roster line never depends on the delay unless it is a mentor's. */
  lemma OtherLineIgnoresDelay(r: RsvpUser, delay: Option<int>)
    ensures OtherLine(r) == OtherLine(r.(rsvp := r.rsvp.(delay := delay)))
    ensures r.rsvp.status == LATE && delay.Some? && delay.value != 0 ==>
      MentorLine(r.(rsvp := r.rsvp.(delay := delay))) == r.username + " - :clock3: - " + IntToString(delay.value) + "m late"
  {
    var moved := r.(rsvp := r.rsvp.(delay := delay));
    assert moved.rsvp.status == r.rsvp.status && moved.username == r.username;
  }
}
