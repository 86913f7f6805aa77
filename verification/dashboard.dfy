/** The candidate dashboard: the application counts by status, the five
  * most recent applications, and the colour of each status badge. */
module Dashboard {
  import opened Wrappers
  import opened JsStrings
  import opened Seqs

  /** An application as the dashboard receives it; `status` is
    * `applicationstatus?.name`, missing when the application has none. */
  datatype Application = Application(id: string, status: Option<string>)

  /** `a.applicationstatus?.name?.toLowerCase() === word`. */
  function HasStatus(word: string): Application -> bool {
    (a: Application) => a.status.Some? && ToLower(a.status.value) == word
  }

  datatype Stats = Stats(total: nat, pending: nat, accepted: nat, rejected: nat)

  /** `stats`: every application counts in the total; each of the three
    * named counts takes the applications whose status reads as that word
    * in any letter case. */
  function StatsOf(apps: seq<Application>): (r: Stats)
    ensures r.total == |apps|
    ensures r.pending + r.accepted + r.rejected <= r.total
  {
    CountsWithinTotal(apps);
    Stats(|apps|, Count(HasStatus("pending"), apps), Count(HasStatus("accepted"), apps),
          Count(HasStatus("rejected"), apps))
  }

  /** No application counts under two statuses, so the three counts never
    * exceed the total. */
  lemma {:induction false} CountsWithinTotal(apps: seq<Application>)
    ensures Count(HasStatus("pending"), apps) + Count(HasStatus("accepted"), apps)
            + Count(HasStatus("rejected"), apps) <= |apps|
    decreases |apps|
  {
    if |apps| > 0 {
      CountsWithinTotal(apps[1..]);
      var a := apps[0];
      assert !(HasStatus("pending")(a) && HasStatus("accepted")(a));
      assert !(HasStatus("pending")(a) && HasStatus("rejected")(a));
      assert !(HasStatus("accepted")(a) && HasStatus("rejected")(a));
    }
  }

  /** A new application adds one to the total and one to the count of its
    * own status, if it has one of the three; one with no status counts in
    * the total only. */
  lemma AddApplication(apps: seq<Application>, a: Application)
    ensures var before, after := StatsOf(apps), StatsOf(apps + [a]);
      && after.total == before.total + 1
      && after.pending == before.pending + (if HasStatus("pending")(a) then 1 else 0)
      && after.accepted == before.accepted + (if HasStatus("accepted")(a) then 1 else 0)
      && after.rejected == before.rejected + (if HasStatus("rejected")(a) then 1 else 0)
      && (a.status.None? ==>
            after.pending == before.pending && after.accepted == before.accepted
            && after.rejected == before.rejected)
  {
    FilterAppend(HasStatus("pending"), apps, [a]);
    FilterAppend(HasStatus("accepted"), apps, [a]);
    FilterAppend(HasStatus("rejected"), apps, [a]);
  }

  /** Letter case of a status does not change where it is counted. */
  lemma CaseInsensitive(id: string, name: string, word: string)
    ensures HasStatus(word)(Application(id, Some(name))) == HasStatus(word)(Application(id, Some(ToLower(name))))
  {
    ToLowerIdempotent(name);
  }

  /** `applications.slice(0, 5)`: the first five, in the order given, or
    * all of them when there are fewer. */
  function Recent(apps: seq<Application>): (r: seq<Application>)
    ensures |r| == if |apps| < 5 then |apps| else 5
    ensures r <= apps
  {
    Take(apps, 5)
  }

  datatype Badge = Green | Red | Yellow

  /** The status badge's colour. */
  function BadgeOf(a: Application): (b: Badge)
    ensures b == Green <==> HasStatus("accepted")(a)
    ensures b == Red <==> HasStatus("rejected")(a)
    ensures b == Yellow <==> !HasStatus("accepted")(a) && !HasStatus("rejected")(a)
  {
    if HasStatus("accepted")(a) then Green
    else if HasStatus("rejected")(a) then Red
    else Yellow
  }

  /** The green badges are as many as the accepted count, the red ones as
    * many as the rejected count; pending and missing statuses are yellow. */
  lemma {:induction false} BadgesMatchCounts(apps: seq<Application>)
    ensures Count((a: Application) => BadgeOf(a) == Green, apps) == StatsOf(apps).accepted
    ensures Count((a: Application) => BadgeOf(a) == Red, apps) == StatsOf(apps).rejected
    decreases |apps|
  {
    if |apps| > 0 {
      BadgesMatchCounts(apps[1..]);
    }
  }
}
