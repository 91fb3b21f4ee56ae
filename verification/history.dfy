/** Grouping a conversation's messages by day for display
    (`groupMessagesByDate`). */
module History {
  import opened Social

  /** The day a message is filed under: its own date, or today's when it has
      none. */
  function DateOf(m: Message, today: string): string {
    if m.date == "" then today else m.date
  }

  /** Reference definition: the messages of `ms` filed under day `d`, in
      their original order. */
  function OnDate(ms: seq<Message>, d: string, today: string): seq<Message>
    decreases |ms|
  {
    if |ms| == 0 then []
    else
      var last := ms[|ms| - 1];
      OnDate(ms[..|ms| - 1], d, today) + (if DateOf(last, today) == d then [last] else [])
  }

  /** Position of the first message filed under `d`, or `|ms|` if none is. */
  function FirstOn(ms: seq<Message>, d: string, today: string): (r: nat)
    ensures r <= |ms|
    decreases |ms|
  {
    if |ms| == 0 then 0
    else if DateOf(ms[0], today) == d then 0
    else 1 + FirstOn(ms[1..], d, today)
  }

  /** `FirstOn` finds the first message filed under `d`. */
  lemma {:induction false} FirstOnIsFirst(ms: seq<Message>, d: string, today: string)
    ensures FirstOn(ms, d, today) < |ms| ==> DateOf(ms[FirstOn(ms, d, today)], today) == d
    ensures forall k | 0 <= k < FirstOn(ms, d, today) :: DateOf(ms[k], today) != d
    decreases |ms|
  {
    if |ms| > 0 && DateOf(ms[0], today) != d {
      FirstOnIsFirst(ms[1..], d, today);
      forall k | 0 <= k < FirstOn(ms, d, today) ensures DateOf(ms[k], today) != d {
        if k > 0 { assert ms[k] == ms[1..][k - 1]; }
      }
    }
  }

  datatype DateGroup = DateGroup(date: string, messages: seq<Message>)

  function DatesOf(groups: seq<DateGroup>): set<string> {
    set g | g in groups :: g.date
  }

  lemma {:induction false} OnDateNone(ms: seq<Message>, d: string, today: string)
    requires forall k | 0 <= k < |ms| :: DateOf(ms[k], today) != d
    ensures OnDate(ms, d, today) == []
    decreases |ms|
  {
    if |ms| > 0 {
      OnDateNone(ms[..|ms| - 1], d, today);
    }
  }

  lemma OnDateStep(ms: seq<Message>, i: nat, d: string, today: string)
    requires i < |ms|
    ensures OnDate(ms[..i + 1], d, today)
      == OnDate(ms[..i], d, today) + (if DateOf(ms[i], today) == d then [ms[i]] else [])
  {
    assert ms[..i + 1][..i] == ms[..i];
  }

  predicate DistinctDates(groups: seq<DateGroup>) {
    forall j, k | 0 <= j < k < |groups| :: groups[j].date != groups[k].date
  }

  /** Each group holds exactly its day's messages among the first `i`. */
  predicate GroupsMatch(ms: seq<Message>, i: nat, groups: seq<DateGroup>, today: string)
    requires i <= |ms|
  {
    forall j | 0 <= j < |groups| ::
      groups[j].messages == OnDate(ms[..i], groups[j].date, today) && |groups[j].messages| > 0
  }

  /** Groups are listed in the order their days first appear, all among the
      first `i` messages. */
  predicate GroupsOrdered(ms: seq<Message>, i: nat, groups: seq<DateGroup>, today: string) {
    && (forall j | 0 <= j < |groups| :: FirstOn(ms, groups[j].date, today) < i)
    && (forall j, k | 0 <= j < k < |groups| ::
          FirstOn(ms, groups[j].date, today) < FirstOn(ms, groups[k].date, today))
  }

  /** The state of the grouping after the first `i` messages. */
  predicate Grouped(ms: seq<Message>, i: nat, groups: seq<DateGroup>, today: string) {
    && i <= |ms|
    && DistinctDates(groups)
    && GroupsMatch(ms, i, groups, today)
    && (forall k | 0 <= k < i :: DateOf(ms[k], today) in DatesOf(groups))
    && GroupsOrdered(ms, i, groups, today)
  }

  predicate CoversPrefix(ms: seq<Message>, i: nat, groups: seq<DateGroup>, today: string)
    requires i <= |ms|
  {
    forall k | 0 <= k < i :: DateOf(ms[k], today) in DatesOf(groups)
  }

  lemma MatchAfterStep(ms: seq<Message>, i: nat, groups: seq<DateGroup>, r: seq<DateGroup>, today: string)
    requires i < |ms| && GroupsMatch(ms, i, groups, today)
    requires |r| >= |groups|
    requires forall g | 0 <= g < |groups| :: r[g].date == groups[g].date
    requires forall g | 0 <= g < |groups| ::
      r[g].messages == groups[g].messages + (if groups[g].date == DateOf(ms[i], today) then [ms[i]] else [])
    requires forall g | |groups| <= g < |r| ::
      r[g].messages == OnDate(ms[..i + 1], r[g].date, today) && |r[g].messages| > 0
    ensures GroupsMatch(ms, i + 1, r, today)
  {
    forall g | 0 <= g < |groups| ensures r[g].messages == OnDate(ms[..i + 1], r[g].date, today) {
      OnDateStep(ms, i, groups[g].date, today);
    }
  }

  lemma OpenGroupMatch(ms: seq<Message>, i: nat, groups: seq<DateGroup>, today: string)
    requires i < |ms| && GroupsMatch(ms, i, groups, today)
    requires CoversPrefix(ms, i, groups, today)
    requires DateOf(ms[i], today) !in DatesOf(groups)
    ensures GroupsMatch(ms, i + 1, groups + [DateGroup(DateOf(ms[i], today), [ms[i]])], today)
  {
    var d := DateOf(ms[i], today);
    var r := groups + [DateGroup(d, [ms[i]])];
    forall g | 0 <= g < |groups| ensures groups[g].date != d {
      assert groups[g] in groups;
    }
    assert forall k | 0 <= k < |ms[..i]| :: DateOf(ms[..i][k], today) != d;
    OnDateNone(ms[..i], d, today);
    OnDateStep(ms, i, d, today);
    MatchAfterStep(ms, i, groups, r, today);
  }

  lemma OpenGroupOrdered(ms: seq<Message>, i: nat, groups: seq<DateGroup>, today: string)
    requires i < |ms| && GroupsOrdered(ms, i, groups, today)
    requires CoversPrefix(ms, i, groups, today)
    requires DateOf(ms[i], today) !in DatesOf(groups)
    ensures GroupsOrdered(ms, i + 1, groups + [DateGroup(DateOf(ms[i], today), [ms[i]])], today)
  {
    var d := DateOf(ms[i], today);
    assert forall k | 0 <= k < i :: DateOf(ms[k], today) != d;
    FirstOnIsFirst(ms, d, today);
    assert FirstOn(ms, d, today) == i;
  }

  lemma OpenGroup(ms: seq<Message>, i: nat, groups: seq<DateGroup>, today: string)
    requires i < |ms| && Grouped(ms, i, groups, today)
    requires DateOf(ms[i], today) !in DatesOf(groups)
    ensures Grouped(ms, i + 1, groups + [DateGroup(DateOf(ms[i], today), [ms[i]])], today)
  {
    var d := DateOf(ms[i], today);
    var r := groups + [DateGroup(d, [ms[i]])];
    assert CoversPrefix(ms, i, groups, today);
    OpenGroupMatch(ms, i, groups, today);
    OpenGroupOrdered(ms, i, groups, today);
    assert DatesOf(r) == DatesOf(groups) + {d};
    forall g | 0 <= g < |groups| ensures groups[g].date != d {
      assert groups[g] in groups;
    }
  }

  /** Groups with the same days in the same places list the same set of
      days. */
  lemma SameDates(groups: seq<DateGroup>, r: seq<DateGroup>)
    requires |r| == |groups|
    requires forall g | 0 <= g < |groups| :: r[g].date == groups[g].date
    ensures DatesOf(r) == DatesOf(groups)
  {
    forall x | x in DatesOf(r) ensures x in DatesOf(groups) {
      var g :| g in r && g.date == x;
      var n :| 0 <= n < |r| && r[n] == g;
      assert groups[n] in groups;
    }
    forall x | x in DatesOf(groups) ensures x in DatesOf(r) {
      var g :| g in groups && g.date == x;
      var n :| 0 <= n < |groups| && groups[n] == g;
      assert r[n] in r;
    }
  }

  lemma ExtendGroup(ms: seq<Message>, i: nat, groups: seq<DateGroup>, today: string, j: nat)
    requires i < |ms| && Grouped(ms, i, groups, today)
    requires j < |groups| && groups[j].date == DateOf(ms[i], today)
    ensures Grouped(ms, i + 1, groups[j := groups[j].(messages := groups[j].messages + [ms[i]])], today)
  {
    var r := groups[j := groups[j].(messages := groups[j].messages + [ms[i]])];
    assert forall g | 0 <= g < |groups| :: r[g].date == groups[g].date;
    MatchAfterStep(ms, i, groups, r, today);
    SameDates(groups, r);
    assert CoversPrefix(ms, i, groups, today);
    assert groups[j] in groups;
  }

  /** Once every message is placed, the grouping invariant is the contract
      of `GroupByDate`. */
  lemma GroupedAll(ms: seq<Message>, groups: seq<DateGroup>, today: string)
    requires Grouped(ms, |ms|, groups, today)
    ensures forall j | 0 <= j < |groups| ::
      groups[j].messages == OnDate(ms, groups[j].date, today) && |groups[j].messages| > 0
    ensures forall i | 0 <= i < |ms| :: DateOf(ms[i], today) in DatesOf(groups)
    ensures forall j, k | 0 <= j < k < |groups| ::
      FirstOn(ms, groups[j].date, today) < FirstOn(ms, groups[k].date, today)
  {
    assert ms[..|ms|] == ms;
  }

  /** `groupMessagesByDate`: one group per day, listed in the order the days
      first appear; each group holds exactly that day's messages, in their
      original order, so together the groups partition the input. */
  method GroupByDate(ms: seq<Message>, today: string) returns (groups: seq<DateGroup>)
    ensures DistinctDates(groups)
    ensures forall j | 0 <= j < |groups| ::
      groups[j].messages == OnDate(ms, groups[j].date, today) && |groups[j].messages| > 0
    ensures forall i | 0 <= i < |ms| :: DateOf(ms[i], today) in DatesOf(groups)
    ensures forall j, k | 0 <= j < k < |groups| ::
      FirstOn(ms, groups[j].date, today) < FirstOn(ms, groups[k].date, today)
  {
    groups := [];
    var i := 0;
    while i < |ms|
      invariant 0 <= i <= |ms|
      invariant Grouped(ms, i, groups, today)
    {
      var d := DateOf(ms[i], today);
      var j := 0;
      while j < |groups| && groups[j].date != d
        invariant 0 <= j <= |groups|
        invariant forall k | 0 <= k < j :: groups[k].date != d
      {
        j := j + 1;
      }
      if j == |groups| {
        assert d !in DatesOf(groups);
        OpenGroup(ms, i, groups, today);
        groups := groups + [DateGroup(d, [ms[i]])];
      } else {
        ExtendGroup(ms, i, groups, today, j);
        groups := groups[j := groups[j].(messages := groups[j].messages + [ms[i]])];
      }
      i := i + 1;
    }
    GroupedAll(ms, groups, today);
  }
}
