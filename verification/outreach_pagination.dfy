/**
 The bot's outreach leaderboard: rounding an outreach duration to whole
 minutes, and the page of ten entries shown with First / Previous / Next /
 Last navigation buttons whose custom ids carry the target page.
 */
module OutreachPagination {
  import opened Wrappers
  import opened Seqs
  import opened Decimal

  const MillisPerMinute := 60000
  const MillisPerHour := 3600000
  const PerPage := 10

  /** A Luxon `Duration` built from whole hours and minutes. */
  datatype Duration = Duration(hours: int, minutes: int)

  /** `Duration.toMillis()` of an hours-and-minutes duration. */
  function ToMillis(d: Duration): int {
    d.hours * MillisPerHour + d.minutes * MillisPerMinute
  }

  /**
   `Math.round(millis / 60000)`: JavaScript rounds half-way values up, so this
   is the floor of `millis / 60000 + 1/2`, computed exactly on integers.
   */
  function RoundToMinutes(millis: int): (k: int)
    ensures k * MillisPerMinute - MillisPerMinute / 2 <= millis < k * MillisPerMinute + MillisPerMinute / 2
  {
    (millis + MillisPerMinute / 2) / MillisPerMinute
  }

  /** JavaScript's `%`: the remainder takes the sign of the dividend. */
  function JsRem(a: int, b: int): int
    requires b > 0
  {
    if a >= 0 then a % b else -((-a) % b)
  }

  /** `roundDuration`: round to the nearest minute, then split into hours and minutes. */
  function RoundDuration(millis: int): Duration
  {
    var rounded := RoundToMinutes(millis) * MillisPerMinute;
    var hours := rounded / MillisPerHour;
    var minutes := JsRem(rounded, MillisPerHour) / MillisPerMinute;
    Duration(hours, minutes)
  }

  /**
   For a non-negative duration the result is a proper hours-and-minutes split
   of the duration rounded to the nearest minute (half a minute rounds up).
   */
  lemma RoundDurationSplits(millis: int)
    requires millis >= 0
    ensures var d := RoundDuration(millis);
      && 0 <= d.minutes < 60
      && d.hours >= 0
      && (d.hours * 60 + d.minutes) * MillisPerMinute - MillisPerMinute / 2 <= millis
      && millis < (d.hours * 60 + d.minutes) * MillisPerMinute + MillisPerMinute / 2
  {
    var k := RoundToMinutes(millis);
    var rounded := k * MillisPerMinute;
    assert k >= 0;
    MinutesToHours(k);
  }

  /** Whole minutes split into whole hours and the remaining minutes, in milliseconds. */
  lemma MinutesToHours(k: nat)
    ensures (k * MillisPerMinute) / MillisPerHour == k / 60
    ensures (k * MillisPerMinute) % MillisPerHour == (k % 60) * MillisPerMinute
  {
    var q := k / 60;
    var r := k % 60;
    assert k * MillisPerMinute == q * MillisPerHour + r * MillisPerMinute;
    HourDivision(k * MillisPerMinute, q, r * MillisPerMinute);
  }

  /** Division by an hour is determined by any quotient-remainder decomposition. */
  lemma HourDivision(a: int, q: int, r: int)
    requires a == q * MillisPerHour + r && 0 <= r < MillisPerHour
    ensures a / MillisPerHour == q && a % MillisPerHour == r
  {
  }

  /** Rounding a duration that is already whole minutes changes nothing. */
  lemma RoundDurationIdempotent(millis: int)
    requires millis >= 0
    ensures RoundDuration(ToMillis(RoundDuration(millis))) == RoundDuration(millis)
  {
    RoundDurationSplits(millis);
    var d := RoundDuration(millis);
    var total := d.hours * 60 + d.minutes;
    assert ToMillis(d) == total * MillisPerMinute;
    assert RoundToMinutes(ToMillis(d)) == total;
    RoundDurationSplits(ToMillis(d));
    var e := RoundDuration(ToMillis(d));
    assert e.hours * 60 + e.minutes == total;
  }

  /**
   For negative durations rounding is not idempotent: hours are floored
   while the remainder keeps the dividend's sign, so one minute early splits
   into -1 hour and -1 minute, and re-rounding that moves to -2 hours.
   */
  lemma RoundDurationNegativeNotIdempotent()
    ensures RoundDuration(-MillisPerMinute) == Duration(-1, -1)
    ensures RoundDuration(ToMillis(Duration(-1, -1))) == Duration(-2, -1)
  {
  }

  /** One entry of the leaderboard returned by the backend. */
  datatype LeaderboardUser = LeaderboardUser(rank: int, username: string, durationMillis: int)

  /** `leaderboardLine`, with the duration rounded but not yet rendered by `toHuman`. */
  datatype LeaderboardLine = LeaderboardLine(rank: int, username: string, duration: Duration)

  function LeaderboardLineOf(u: LeaderboardUser): LeaderboardLine {
    LeaderboardLine(u.rank, u.username, RoundDuration(u.durationMillis))
  }

  datatype NavLabel = First | Previous | Next | Last

  /** A navigation button: its kind, the page it leads to, and whether it is disabled. */
  datatype NavButton = NavButton(kind: NavLabel, target: int, disabled: bool, customId: string)

  datatype PageMessage = PageMessage(title: string, lines: seq<LeaderboardLine>, buttons: seq<NavButton>)

  /** `Math.ceil(n / 10)` for a non-negative count. */
  function MaxPage(count: nat): (m: nat)
    ensures (m - 1) * PerPage < count <= m * PerPage || (count == 0 && m == 0)
  {
    (count + PerPage - 1) / PerPage
  }

  /** The custom id `leaderboard/{target}/{random}` the button handler is routed by. */
  function NavCustomId(target: int, random: string): string {
    "leaderboard/" + IntToString(target) + "/" + random
  }

  /** `leaderboardData.slice((page - 1) * 10, (page - 1) * 10 + 10)`. */
  function PageSlice(data: seq<LeaderboardUser>, page: nat): seq<LeaderboardUser>
    requires page >= 1
  {
    Slice(data, (page - 1) * PerPage, (page - 1) * PerPage + PerPage)
  }

  /**
   `createMessage(page)` given the entries the backend returned. `random`
   stands for the four `randomStr(4)` suffixes that make the custom ids unique.
   */
  function CreateMessage(page: int, data: seq<LeaderboardUser>, random: seq<string>): (r: Result<PageMessage, string>)
    requires |random| == 4
    ensures r.Err? <==> page < 1 || page > MaxPage(|data|)
    ensures r.Err? ==> r.error == "Invalid page"
    ensures |data| == 0 ==> r.Err?
    ensures r.Ok? ==> 1 <= |r.value.lines| <= PerPage
    ensures r.Ok? ==> |r.value.lines| == |PageSlice(data, page)| == Min(PerPage, |data| - (page - 1) * PerPage)
    ensures r.Ok? ==> forall i :: 0 <= i < |r.value.lines| ==> r.value.lines[i] == LeaderboardLineOf(PageSlice(data, page)[i])
    ensures r.Ok? ==> (page - 1) * PerPage + |r.value.lines| <= |data|
    ensures r.Ok? ==> forall i :: 0 <= i < |r.value.lines| ==>
      r.value.lines[i] == LeaderboardLineOf(data[(page - 1) * PerPage + i])
    ensures r.Ok? ==> (
      && |r.value.buttons| == 4
      && r.value.buttons[0].kind == First && r.value.buttons[0].target == 1
      && r.value.buttons[1].kind == Previous && r.value.buttons[1].target == page - 1
      && r.value.buttons[2].kind == Next && r.value.buttons[2].target == page + 1
      && r.value.buttons[3].kind == Last && r.value.buttons[3].target == MaxPage(|data|))
    ensures r.Ok? ==> forall i :: 0 <= i < 4 ==> r.value.buttons[i].customId == NavCustomId(r.value.buttons[i].target, random[i])
    ensures r.Ok? ==> (r.value.buttons[0].disabled <==> page == 1) && (r.value.buttons[1].disabled <==> page == 1)
    ensures r.Ok? ==> (
      && (r.value.buttons[2].disabled <==> page == MaxPage(|data|))
      && (r.value.buttons[3].disabled <==> page == MaxPage(|data|)))
    ensures r.Ok? ==> r.value.title == "Outreach Leaderboard " + IntToString(page) + "/" + IntToString(MaxPage(|data|))
  {
    var maxPage := MaxPage(|data|);
    if page > maxPage || page < 1 then Err("Invalid page")
    else
      var start := (page - 1) * PerPage;
      var end := start + PerPage;
      var pageData := Slice(data, start, end);
      var lines := seq(|pageData|, i requires 0 <= i < |pageData| => LeaderboardLineOf(pageData[i]));
      var buttons := [
        NavButton(First, 1, page == 1, NavCustomId(1, random[0])),
        NavButton(Previous, page - 1, page == 1, NavCustomId(page - 1, random[1])),
        NavButton(Next, page + 1, page == maxPage, NavCustomId(page + 1, random[2])),
        NavButton(Last, maxPage, page == maxPage, NavCustomId(maxPage, random[3]))
      ];
      Ok(PageMessage("Outreach Leaderboard " + IntToString(page) + "/" + IntToString(maxPage), lines, buttons))
  }

  /** The concatenation of the slices for pages `1..n`. */
  function PagesUpTo(data: seq<LeaderboardUser>, n: nat): seq<LeaderboardUser>
  {
    if n == 0 then [] else PagesUpTo(data, n - 1) + PageSlice(data, n)
  }

  /** The first `n` pages hold exactly the first `10 * n` entries (or all of them). */
  lemma {:induction false} PagesUpToPrefix(data: seq<LeaderboardUser>, n: nat)
    ensures PagesUpTo(data, n) == data[..Min(n * PerPage, |data|)]
  {
    if n > 0 {
      PagesUpToPrefix(data, n - 1);
      var lo := Min((n - 1) * PerPage, |data|);
      var hi := Min(n * PerPage, |data|);
      assert PageSlice(data, n) == data[lo..hi];
      assert data[..lo] + data[lo..hi] == data[..hi];
    }
  }

  /** Paging through `1..maxPage` shows every entry once, in order. */
  lemma AllPagesCoverData(data: seq<LeaderboardUser>)
    ensures PagesUpTo(data, MaxPage(|data|)) == data
  {
    PagesUpToPrefix(data, MaxPage(|data|));
  }

  /**
   The button handler's route `leaderboard/:toPage/:random`: the custom id must
   have exactly these three non-empty segments; `toPage` is read by `parseInt`.
   */
  function RouteToPage(customId: string): Option<int>
  {
    var prefix := "leaderboard/";
    if |customId| < |prefix| || customId[..|prefix|] != prefix then None
    else
      var rest := customId[|prefix|..];
      var i := IndexOf(rest, '/');
      if i == 0 || i >= |rest| - 1 || '/' in rest[i + 1..] then None
      else ParseInt(rest[..i])
  }

  /** Every button leads, through the button route, to the page it names. */
  lemma NavCustomIdRoundTrip(target: int, random: string)
    requires |random| > 0 && '/' !in random
    ensures RouteToPage(NavCustomId(target, random)) == Some(target)
  {
    var id := NavCustomId(target, random);
    var digits := IntToString(target);
    assert '/' !in digits by {
      if target < 0 {
        assert digits == "-" + NatToString(-target);
      }
    }
    var rest := id[|"leaderboard/"|..];
    assert rest == digits + "/" + random;
    IndexOfAfter(digits, '/', random);
    assert rest[IndexOf(rest, '/') + 1..] == random;
    assert rest[..IndexOf(rest, '/')] == digits;
    ParseIntOfIntToString(target);
  }

  /**
   Every button of a built page carries its target in its custom id: the
   button route reads back exactly the page the button names, provided the
   random suffixes are non-empty and free of '/'.
   */
  lemma ButtonsRouteToTargets(page: int, data: seq<LeaderboardUser>, random: seq<string>)
    requires |random| == 4 && forall i :: 0 <= i < 4 ==> |random[i]| > 0 && '/' !in random[i]
    requires CreateMessage(page, data, random).Ok?
    ensures var buttons := CreateMessage(page, data, random).value.buttons;
      forall i :: 0 <= i < |buttons| ==> RouteToPage(buttons[i].customId) == Some(buttons[i].target)
  {
    var buttons := CreateMessage(page, data, random).value.buttons;
    forall i | 0 <= i < |buttons|
      ensures RouteToPage(buttons[i].customId) == Some(buttons[i].target)
    {
      NavCustomIdRoundTrip(buttons[i].target, random[i]);
    }
  }

  /**
   On a page that was built, every enabled button leads to a page that can be
   built from the same data, so only disabled buttons could raise "Invalid page".
   */
  lemma EnabledButtonsLeadToValidPages(page: int, data: seq<LeaderboardUser>, random: seq<string>, next: seq<string>)
    requires |random| == 4 && |next| == 4
    requires CreateMessage(page, data, random).Ok?
    ensures forall b :: b in CreateMessage(page, data, random).value.buttons && !b.disabled ==>
      CreateMessage(b.target, data, next).Ok?
  {
  }
}
